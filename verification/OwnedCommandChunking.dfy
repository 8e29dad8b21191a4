/** When the chunking of the control pipe decides how the controller ends, and when not. */
module OwnedCommandChunking {
  import opened LineFraming
  import opened OwnedCommands

  /** What a line does to the flags of the loop, its signals aside. */
  datatype Flags = Flags(started: bool, mode: Mode)

  const OPEN: Flags := Flags(false, Open)

  function FlagsOf(r: Reader): (f: Flags) {
    Flags(r.started, r.mode)
  }

  function Next(f: Flags, line: string, nonce: string): (g: Flags) {
    if line == "start:" + nonce && !f.started && f.mode.Open? then Flags(true, Open)
    else if line == "stop:" + nonce then (if f.mode.Open? then Flags(f.started, Stopping) else f)
    else Flags(f.started, Raised)
  }

  /** Every line is obeyed until one raises: what one chunk does. */
  function Eager(f: Flags, lines: seq<string>, nonce: string): (g: Flags)
    decreases |lines|
  {
    if lines == [] || f.mode.Raised? then f else Eager(Next(f, lines[0], nonce), lines[1..], nonce)
  }

  /** Lines are obeyed while the loop is open: what the smallest chunks do. */
  function Lazy(f: Flags, lines: seq<string>, nonce: string): (g: Flags)
    decreases |lines|
  {
    if lines == [] || !f.mode.Open? then f else Lazy(Next(f, lines[0], nonce), lines[1..], nonce)
  }

  /** The complete lines after the first stop line, if no line before it raises. */
  function AfterStop(lines: seq<string>, nonce: string, started: bool): (rest: seq<string>) {
    if lines == [] then []
    else if lines[0] == "start:" + nonce && !started then AfterStop(lines[1..], nonce, true)
    else if lines[0] == "stop:" + nonce then lines[1..]
    else []
  }

  ghost predicate OnlyStops(lines: seq<string>, nonce: string) {
    forall k | 0 <= k < |lines| :: lines[k] == "stop:" + nonce
  }

  // ----- the two folds -----

  lemma StopIsNotStart(nonce: string)
    ensures "stop:" + nonce != "start:" + nonce
  {
    assert ("stop:" + nonce)[2] != ("start:" + nonce)[2];
  }

  lemma {:induction false} EagerAppend(f: Flags, a: seq<string>, b: seq<string>, nonce: string)
    ensures Eager(f, a + b, nonce) == Eager(Eager(f, a, nonce), b, nonce)
    decreases |a|
  {
    if a == [] {
      assert a + b == b;
    } else if !f.mode.Raised? {
      assert (a + b)[1..] == a[1..] + b;
      EagerAppend(Next(f, a[0], nonce), a[1..], b, nonce);
    }
  }

  lemma OnlyStopsSplits(lines: seq<string>, nonce: string)
    requires lines != []
    ensures OnlyStops(lines, nonce) <==> lines[0] == "stop:" + nonce && OnlyStops(lines[1..], nonce)
  {
    if OnlyStops(lines, nonce) {
      forall k | 0 <= k < |lines[1..]|
        ensures lines[1..][k] == "stop:" + nonce
      {
        assert lines[1..][k] == lines[k + 1];
      }
    }
    if lines[0] == "stop:" + nonce && OnlyStops(lines[1..], nonce) {
      forall k | 0 <= k < |lines|
        ensures lines[k] == "stop:" + nonce
      {
        assert k > 0 ==> lines[k] == lines[1..][k - 1];
      }
    }
  }

  /** Once a stop line closed the loop, the eager fold raises exactly for a later line that is
      not the stop line. */
  lemma {:induction false} StoppingEager(f: Flags, lines: seq<string>, nonce: string)
    requires f.mode.Stopping?
    ensures Eager(f, lines, nonce) == if OnlyStops(lines, nonce) then f else Flags(f.started, Raised)
    decreases |lines|
  {
    if lines != [] {
      OnlyStopsSplits(lines, nonce);
      if lines[0] == "stop:" + nonce {
        StopIsNotStart(nonce);
        StoppingEager(f, lines[1..], nonce);
      }
    }
  }

  /** The folds end in the same mode exactly if nothing but stop lines follows the first one. */
  lemma {:induction false} FoldsAgreeExactlyWhen(lines: seq<string>, nonce: string, started: bool)
    ensures var f := Flags(started, Open);
            Eager(f, lines, nonce).mode == Lazy(f, lines, nonce).mode <==> OnlyStops(AfterStop(lines, nonce, started), nonce)
    decreases |lines|
  {
    var f := Flags(started, Open);
    if lines != [] {
      StopIsNotStart(nonce);
      if lines[0] == "start:" + nonce && !started {
        FoldsAgreeExactlyWhen(lines[1..], nonce, true);
      } else if lines[0] == "stop:" + nonce {
        StoppingEager(Flags(started, Stopping), lines[1..], nonce);
      }
    }
  }

  // ----- the loop and the folds -----

  lemma {:induction false} ObeyAllIsEager(r: Reader, nonce: string)
    ensures FlagsOf(ObeyAll(r, nonce)) == Eager(FlagsOf(r), Lines(r.buffer), nonce)
    decreases |r.buffer|
  {
    var at := NewlineAt(r.buffer);
    if at < |r.buffer| && !r.mode.Raised? {
      var line, rest := r.buffer[..at], r.(buffer := r.buffer[at + 1..]);
      assert Lines(r.buffer) == [line] + Lines(rest.buffer);
      ObeyAllIsEager(Obey(rest, line, nonce), nonce);
    }
  }

  /** The events are the text cut into chunks, without deadlines and without an end. */
  ghost predicate Chunks(events: seq<Event>) {
    forall e | e in events :: e.Chunk? && e.text != ""
  }

  /** The loop after `text`: open, with the flags of its lines and its remainder. */
  ghost predicate Reached(r: Reader, text: string, nonce: string) {
    FlagsOf(r) == Eager(OPEN, Lines(text), nonce) && (r.mode.Open? ==> r.buffer == Rest(text))
  }

  lemma ReactReaches(r: Reader, chunk: string, text: string, nonce: string)
    requires Reached(r, text, nonce) && r.mode.Open? && chunk != "" && |text + chunk| <= BUFFER_LIMIT
    ensures Reached(React(r, Chunk(chunk), nonce), text + chunk, nonce)
  {
    FramingIsIncremental(text, chunk);
    RestIsShort(text);
    EagerAppend(OPEN, Lines(text), Lines(Rest(text) + chunk), nonce);
    ObeyAllIsEager(r.(buffer := r.buffer + chunk), nonce);
    ObeyAllTraced(r.(buffer := r.buffer + chunk), nonce);
  }

  lemma {:induction false} ClosedStays(r: Reader, events: seq<Event>, nonce: string)
    requires !r.mode.Open?
    ensures Run(r, events, nonce) == r
    decreases |events|
  {
    if events != [] {
      ClosedStays(r, events[1..], nonce);
    }
  }

  /** What a run that stopped at `text` would still have done with all the lines. */
  ghost predicate Ends(r: Reader, text: string, nonce: string) {
    var eager := Eager(OPEN, Lines(text), nonce);
    && (FlagsOf(r) == eager || (r.mode.Stopping? && eager.mode.Raised? && r.started == eager.started))
    && (r.mode.Stopping? ==> Lazy(OPEN, Lines(text), nonce).mode.Stopping?)
  }

  lemma {:induction false} EagerStopIsLazy(f: Flags, lines: seq<string>, nonce: string)
    requires Eager(f, lines, nonce).mode.Stopping?
    ensures Lazy(f, lines, nonce).mode.Stopping?
    decreases |lines|
  {
    if lines != [] && f.mode.Open? {
      EagerStopIsLazy(Next(f, lines[0], nonce), lines[1..], nonce);
    } else if lines != [] {
      StoppingEager(f, lines, nonce);
    }
  }

  lemma StoppedEnds(r: Reader, text: string, more: string, nonce: string)
    requires Reached(r, text, nonce) && !r.mode.Open?
    ensures Ends(r, text + more, nonce)
  {
    FramingIsIncremental(text, more);
    var later := Lines(Rest(text) + more);
    EagerAppend(OPEN, Lines(text), later, nonce);
    if r.mode.Stopping? {
      StoppingEager(FlagsOf(r), later, nonce);
      EagerStopIsLazy(OPEN, Lines(text), nonce);
      LazyAppend(OPEN, Lines(text), later, nonce);
    }
  }

  /** Every chunking ends as one chunk would, or is stopped where one chunk would raise. */
  lemma {:induction false} RunEnds(r: Reader, events: seq<Event>, text: string, nonce: string)
    requires Reached(r, text, nonce) && Chunks(events) && |text + Text(events)| <= BUFFER_LIMIT
    ensures Ends(Run(r, events, nonce), text + Text(events), nonce)
    decreases |events|
  {
    if !r.mode.Open? {
      ClosedStays(r, events, nonce);
      StoppedEnds(r, text, Text(events), nonce);
    } else if events == [] {
      ConcatEmpty(text);
    } else {
      var chunk := events[0].text;
      assert events[0] in events;
      ConcatAssociates(text, chunk, Text(events[1..]));
      ReactReaches(r, chunk, text, nonce);
      RunEnds(React(r, events[0], nonce), events[1..], text + chunk, nonce);
    }
  }

  lemma FreshReached(nonce: string)
    ensures Reached(FRESH, "", nonce)
  {
    NewlineAtUnique("", 0);
  }

  // ----- the smallest chunks -----

  function Singles(text: string): (events: seq<Event>) {
    if text == "" then [] else [Chunk([text[0]])] + Singles(text[1..])
  }

  lemma {:induction false} SinglesAreChunks(text: string)
    ensures Chunks(Singles(text)) && Text(Singles(text)) == text
    decreases |text|
  {
    if text != "" {
      SinglesAreChunks(text[1..]);
      assert Singles(text)[1..] == Singles(text[1..]);
    }
  }

  /** One more character completes at most one line. */
  lemma OneCharacter(text: string, c: char)
    ensures Lines(text + [c]) == Lines(text) + (if c == '\n' then [Rest(text)] else [])
  {
    FramingIsIncremental(text, [c]);
    RestHasNoNewline(text);
    if c == '\n' {
      assert Rest(text) + [c] == Rest(text) + "\n" + "";
      LineThenRest(Rest(text), "");
      NewlineAtUnique("", 0);
    } else {
      NewlineAtUnique(Rest(text) + [c], |Rest(text)| + 1);
    }
  }

  lemma {:induction false} LazyAppend(f: Flags, a: seq<string>, b: seq<string>, nonce: string)
    ensures Lazy(f, a + b, nonce) == Lazy(Lazy(f, a, nonce), b, nonce)
    decreases |a|
  {
    if a == [] {
      assert a + b == b;
    } else if f.mode.Open? {
      assert (a + b)[1..] == a[1..] + b;
      LazyAppend(Next(f, a[0], nonce), a[1..], b, nonce);
    }
  }

  /** Cut into single characters the text is obeyed lazily. */
  lemma {:induction false} SinglesAreLazy(r: Reader, text: string, more: string, nonce: string)
    requires FlagsOf(r) == Lazy(OPEN, Lines(text), nonce)
    requires r.mode.Open? ==> Reached(r, text, nonce)
    requires |text + more| <= BUFFER_LIMIT
    ensures FlagsOf(Run(r, Singles(more), nonce)) == Lazy(OPEN, Lines(text + more), nonce)
    decreases |more|
  {
    if !r.mode.Open? {
      ClosedStays(r, Singles(more), nonce);
      FramingIsIncremental(text, more);
      LazyAppend(OPEN, Lines(text), Lines(Rest(text) + more), nonce);
    } else if more == "" {
      ConcatEmpty(text);
    } else {
      var c := more[0];
      assert text + more == text + [c] + more[1..];
      OneCharacter(text, c);
      LazyAppend(OPEN, Lines(text), if c == '\n' then [Rest(text)] else [], nonce);
      EagerAppend(OPEN, Lines(text), if c == '\n' then [Rest(text)] else [], nonce);
      ReactReaches(r, [c], text, nonce);
      assert Singles(more)[1..] == Singles(more[1..]);
      SinglesAreLazy(React(r, Chunk([c]), nonce), text + [c], more[1..], nonce);
    }
  }

  // ----- the result -----

  lemma AgreeingRun(a: seq<Event>, text: string, nonce: string)
    requires Chunks(a) && Text(a) == text && |text| <= BUFFER_LIMIT
    requires Eager(OPEN, Lines(text), nonce).mode == Lazy(OPEN, Lines(text), nonce).mode
    ensures Run(FRESH, a, nonce).mode == Eager(OPEN, Lines(text), nonce).mode
  {
    FreshReached(nonce);
    ConcatEmpty(text);
    RunEnds(FRESH, a, "", nonce);
  }

  lemma DisagreeingRuns(text: string, nonce: string)
    requires text != "" && |text| <= BUFFER_LIMIT
    ensures Chunks([Chunk(text)]) && Text([Chunk(text)]) == text && Chunks(Singles(text)) && Text(Singles(text)) == text
    ensures Run(FRESH, [Chunk(text)], nonce).mode == Eager(OPEN, Lines(text), nonce).mode
    ensures Run(FRESH, Singles(text), nonce).mode == Lazy(OPEN, Lines(text), nonce).mode
  {
    FreshReached(nonce);
    ConcatEmpty(text);
    ConcatEmpty(Piece(Chunk(text)));
    OneChunk(FRESH, Chunk(text), nonce);
    assert [Chunk(text)][1..] == [];
    ReactReaches(FRESH, text, "", nonce);
    SinglesAreChunks(text);
    NewlineAtUnique("", 0);
    SinglesAreLazy(FRESH, "", text, nonce);
  }

  /** The final mode does not depend on how the text was cut. */
  ghost predicate ModeIgnoresChunking(text: string, nonce: string) {
    forall a, b | Chunks(a) && Chunks(b) && Text(a) == text && Text(b) == text ::
      Run(FRESH, a, nonce).mode == Run(FRESH, b, nonce).mode
  }

  /** For a text that fits the buffer the chunking is irrelevant exactly if no complete line
      that follows the first stop line, itself reached without raising, is anything else. */
  lemma ModeIgnoresChunkingExactlyWhen(text: string, nonce: string)
    requires |text| <= BUFFER_LIMIT
    ensures ModeIgnoresChunking(text, nonce) <==> OnlyStops(AfterStop(Lines(text), nonce, false), nonce)
  {
    FoldsAgreeExactlyWhen(Lines(text), nonce, false);
    if OnlyStops(AfterStop(Lines(text), nonce, false), nonce) {
      forall a | Chunks(a) && Text(a) == text
        ensures Run(FRESH, a, nonce).mode == Eager(OPEN, Lines(text), nonce).mode
      {
        AgreeingRun(a, text, nonce);
      }
    } else {
      NewlineAtUnique("", 0);
      DisagreeingRuns(text, nonce);
    }
  }

  /** A line that raises before any stop line does so under every chunking, whatever follows. */
  lemma RaisingFirst(text: string, nonce: string)
    requires |text| <= BUFFER_LIMIT && Lines(text) != []
    requires Lines(text)[0] != "start:" + nonce && Lines(text)[0] != "stop:" + nonce
    ensures ModeIgnoresChunking(text, nonce)
  {
    ModeIgnoresChunkingExactlyWhen(text, nonce);
  }
}
