/** When the chunking of the receipt pipe decides which receipts the parent holds, and when
    not. */
module OwnedParentChunking {
  import opened Wrappers
  import opened LineFraming
  import opened OwnedParent

  datatype Receipts = Receipts(ready: Option<ReadyReceipt>, closed: Option<ClosedReceipt>)

  const NONE: Receipts := Receipts(None, None)

  function ReceiptsOf(p: Parent): (r: Receipts) {
    Receipts(p.ready, p.closed)
  }

  function Ruling(r: Receipts, line: string, l: Launch): (v: Verdict) {
    JudgeLine(Accepted(r.ready, r.closed), line, l)
  }

  /** A rejected line leaves the receipts as they are. */
  function Take(r: Receipts, line: string, l: Launch): (t: Receipts) {
    var v := Ruling(r, line, l);
    if v.Rejected? then r else Receipts(v.ready, v.closed)
  }

  /** The fold that skips rejected lines. */
  function Skipping(r: Receipts, lines: seq<string>, l: Launch): (t: Receipts)
    decreases |lines|
  {
    if lines == [] then r else Skipping(Take(r, lines[0], l), lines[1..], l)
  }

  /** The fold that ends at the first rejected line. */
  function Stopping(r: Receipts, lines: seq<string>, l: Launch): (t: Receipts)
    decreases |lines|
  {
    if lines == [] || Ruling(r, lines[0], l).Rejected? then r
    else Stopping(Take(r, lines[0], l), lines[1..], l)
  }

  predicate SomeRejected(r: Receipts, lines: seq<string>, l: Launch)
    decreases |lines|
  {
    lines != [] && (Ruling(r, lines[0], l).Rejected? || SomeRejected(Take(r, lines[0], l), lines[1..], l))
  }

  /** Receipts are only ever added. */
  predicate Extends(r: Receipts, t: Receipts) {
    (r.ready.None? || r.ready == t.ready) && (r.closed.None? || r.closed == t.closed)
  }

  // ----- the two folds -----

  lemma {:induction false} SkippingAppend(r: Receipts, a: seq<string>, b: seq<string>, l: Launch)
    ensures Skipping(r, a + b, l) == Skipping(Skipping(r, a, l), b, l)
    ensures SomeRejected(r, a + b, l) <==> SomeRejected(r, a, l) || SomeRejected(Skipping(r, a, l), b, l)
    ensures SomeRejected(r, a, l) ==> Stopping(r, a + b, l) == Stopping(r, a, l)
    decreases |a|
  {
    if a == [] {
      assert a + b == b;
    } else {
      assert (a + b)[1..] == a[1..] + b;
      SkippingAppend(Take(r, a[0], l), a[1..], b, l);
    }
  }

  lemma {:induction false} SkippingExtends(r: Receipts, lines: seq<string>, l: Launch)
    ensures Extends(r, Skipping(r, lines, l)) && Extends(r, Stopping(r, lines, l))
    ensures Extends(Stopping(r, lines, l), Skipping(r, lines, l))
    ensures !SomeRejected(r, lines, l) ==> Stopping(r, lines, l) == Skipping(r, lines, l)
    decreases |lines|
  {
    if lines != [] {
      SkippingExtends(Take(r, lines[0], l), lines[1..], l);
      SkippingExtendsOnly(Take(r, lines[0], l), lines[1..], l);
    }
  }

  lemma {:induction false} SkippingExtendsOnly(r: Receipts, lines: seq<string>, l: Launch)
    ensures Extends(r, Skipping(r, lines, l))
    decreases |lines|
  {
    if lines != [] {
      SkippingExtendsOnly(Take(r, lines[0], l), lines[1..], l);
    }
  }

  // ----- what the handlers do -----

  /** One drain takes some lines; it leaves complete ones behind only after a rejection. */
  ghost predicate Takes(r: Receipts, buffer: string, d: Drained, taken: seq<string>, l: Launch) {
    && Lines(buffer) == taken + Lines(d.rest) && Rest(buffer) == Rest(d.rest)
    && Receipts(d.ready, d.closed) == Skipping(r, taken, l)
    && (Lines(d.rest) != [] ==> SomeRejected(r, taken, l))
  }

  lemma Associates(a: seq<string>, b: seq<string>, c: seq<string>)
    ensures a + (b + c) == a + b + c
  {
  }

  lemma FirstLine(r: Receipts, line: string, more: seq<string>, l: Launch)
    ensures Skipping(r, [line] + more, l) == Skipping(Take(r, line, l), more, l)
    ensures SomeRejected(r, [line] + more, l) <==> Ruling(r, line, l).Rejected? || SomeRejected(Take(r, line, l), more, l)
  {
    assert ([line] + more)[1..] == more;
  }

  /** One line of a drain and what the rest of it takes. */
  lemma TakesFirst(r: Receipts, buffer: string, at: nat, d: Drained, more: seq<string>, l: Launch)
    requires at == NewlineAt(buffer) < |buffer|
    requires if Ruling(r, buffer[..at], l).Rejected?
             then more == [] && Receipts(d.ready, d.closed) == r && d.rest == buffer[at + 1..]
             else Takes(Take(r, buffer[..at], l), buffer[at + 1..], d, more, l)
    ensures Takes(r, buffer, d, [buffer[..at]] + more, l)
  {
    FirstLine(r, buffer[..at], more, l);
    Associates([buffer[..at]], more, Lines(d.rest));
  }

  lemma {:induction false} DrainTakes(r: Receipts, buffer: string, l: Launch) returns (taken: seq<string>)
    ensures Takes(r, buffer, Drain(r.ready, r.closed, buffer, l), taken, l)
    decreases |buffer|
  {
    var at := NewlineAt(buffer);
    if at == |buffer| {
      taken := [];
    } else {
      var more := [];
      if Ruling(r, buffer[..at], l).Accepted? {
        more := DrainTakes(Take(r, buffer[..at], l), buffer[at + 1..], l);
      }
      TakesFirst(r, buffer, at, Drain(r.ready, r.closed, buffer, l), more, l);
      taken := [buffer[..at]] + more;
    }
  }

  /** After `text`, the parent has taken the lines `done` and holds the others. */
  ghost predicate Reached(p: Parent, text: string, done: seq<string>, l: Launch) {
    && Lines(text) == done + Lines(p.buffer) && Rest(text) == Rest(p.buffer)
    && ReceiptsOf(p) == Skipping(NONE, done, l)
    && (Lines(p.buffer) != [] ==> SomeRejected(NONE, done, l))
  }

  /** The lines of a longer text, with the unread buffer in the place of the text. */
  lemma MoreText(text: string, done: seq<string>, buffer: string, chunk: string)
    requires Lines(text) == done + Lines(buffer) && Rest(text) == Rest(buffer)
    ensures Lines(text + chunk) == done + Lines(buffer + chunk) && Rest(text + chunk) == Rest(buffer + chunk)
  {
    FramingIsIncremental(text, chunk);
    FramingIsIncremental(buffer, chunk);
    Associates(done, Lines(buffer), Lines(Rest(text) + chunk));
  }

  lemma StdoutReaches(p: Parent, text: string, done: seq<string>, chunk: string, l: Launch)
    returns (more: seq<string>)
    requires Reached(p, text, done, l) && p.bytes + |chunk| <= OUTPUT_LIMIT
    ensures Reached(Stdout(p, chunk, l), text + chunk, done + more, l)
  {
    more := DrainTakes(ReceiptsOf(p), p.buffer + chunk, l);
    MoreText(text, done, p.buffer, chunk);
    SkippingAppend(NONE, done, more, l);
    Associates(done, more, Lines(Drain(p.ready, p.closed, p.buffer + chunk, l).rest));
  }

  lemma {:induction false} HandleReaches(p: Parent, events: seq<Event>, text: string, done: seq<string>, l: Launch)
    returns (all: seq<string>)
    requires Reached(p, text, done, l) && p.bytes + Total(events) <= OUTPUT_LIMIT
    ensures Reached(Handle(p, events, l), text + Text(events), all, l)
    decreases |events|
  {
    if events == [] {
      ConcatEmpty(text);
      all := done;
    } else {
      var e := events[0];
      var next := done;
      if e.Out? {
        var more := StdoutReaches(p, text, done, e.chunk, l);
        next := done + more;
      } else {
        ConcatEmpty(text);
      }
      ConcatAssociates(text, Written(e), Text(events[1..]));
      all := HandleReaches(HandleOne(p, e, l), events[1..], text + Written(e), next, l);
    }
  }

  /** Whatever the chunking, the receipts lie between those at the first rejected line and
      those of the fold that skips rejected lines. */
  lemma ReceiptsBetween(events: seq<Event>, text: string, l: Launch)
    requires Text(events) == text && Total(events) <= OUTPUT_LIMIT
    ensures var r := ReceiptsOf(Handle(FRESH, events, l));
            Extends(Stopping(NONE, Lines(text), l), r) && Extends(r, Skipping(NONE, Lines(text), l))
  {
    NewlineAtUnique("", 0);
    assert Lines("") == [] + Lines("");
    var done := HandleReaches(FRESH, events, "", [], l);
    ConcatEmpty(text);
    var rest := Lines(Handle(FRESH, events, l).buffer);
    SkippingAppend(NONE, done, rest, l);
    SkippingExtends(NONE, done, l);
    SkippingExtends(Skipping(NONE, done, l), rest, l);
    if rest == [] {
      assert done + rest == done;
    }
  }

  // ----- the two extreme chunkings -----

  lemma {:induction false} DrainIsStopping(r: Receipts, buffer: string, l: Launch)
    ensures var d := Drain(r.ready, r.closed, buffer, l);
            Receipts(d.ready, d.closed) == Stopping(r, Lines(buffer), l)
    decreases |buffer|
  {
    var at := NewlineAt(buffer);
    if at < |buffer| {
      var line, rest := buffer[..at], buffer[at + 1..];
      assert Lines(buffer) == [line] + Lines(rest);
      assert Lines(buffer)[1..] == Lines(rest);
      if Ruling(r, line, l).Accepted? {
        DrainIsStopping(Take(r, line, l), rest, l);
      }
    }
  }

  function Singles(text: string): (events: seq<Event>) {
    if text == "" then [] else [Out([text[0]])] + Singles(text[1..])
  }

  lemma {:induction false} SinglesWrite(text: string)
    ensures Text(Singles(text)) == text && Total(Singles(text)) == |text|
    decreases |text|
  {
    if text != "" {
      SinglesWrite(text[1..]);
      assert Singles(text)[1..] == Singles(text[1..]);
    }
  }

  /** A drain of a buffer with at most one complete line leaves none behind. */
  lemma CharacterDrain(r: Receipts, rest: string, c: char, l: Launch)
    requires '\n' !in rest
    ensures var d := Drain(r.ready, r.closed, rest + [c], l);
            && Receipts(d.ready, d.closed) == Skipping(r, if c == '\n' then [rest] else [], l)
            && d.rest == if c == '\n' then "" else rest + [c]
    ensures Lines(rest + [c]) == (if c == '\n' then [rest] else [])
    ensures Rest(rest + [c]) == (if c == '\n' then "" else rest + [c])
  {
    NewlineAtUnique("", 0);
    if c == '\n' {
      assert rest + [c] == rest + "\n" + "";
      LineThenRest(rest, "");
      DrainLine(r.ready, r.closed, rest + [c], rest, "", l);
      assert [rest][1..] == [];
      assert Skipping(r, [rest], l) == Skipping(Take(r, rest, l), [], l);
    } else {
      NewlineAtUnique(rest + [c], |rest| + 1);
    }
  }

  /** Cut into single characters, rejected lines are skipped. */
  lemma {:induction false} SinglesSkip(p: Parent, text: string, more: string, l: Launch)
    requires p.buffer == Rest(text) && ReceiptsOf(p) == Skipping(NONE, Lines(text), l)
    requires p.bytes + |more| <= OUTPUT_LIMIT
    ensures ReceiptsOf(Handle(p, Singles(more), l)) == Skipping(NONE, Lines(text + more), l)
    decreases |more|
  {
    if more == "" {
      ConcatEmpty(text);
    } else {
      var c := more[0];
      assert text + more == text + [c] + more[1..];
      RestHasNoNewline(text);
      CharacterDrain(ReceiptsOf(p), p.buffer, c, l);
      FramingIsIncremental(text, [c]);
      SkippingAppend(NONE, Lines(text), if c == '\n' then [p.buffer] else [], l);
      assert Singles(more)[1..] == Singles(more[1..]);
      SinglesSkip(Stdout(p, [c], l), text + [c], more[1..], l);
    }
  }

  // ----- the result -----

  /** Two runs of the handlers with the same stdout text. */
  ghost predicate Chunking(events: seq<Event>, text: string) {
    Text(events) == text && Total(events) <= OUTPUT_LIMIT
  }

  ghost predicate ReceiptsIgnoreChunking(text: string, l: Launch) {
    forall a, b | Chunking(a, text) && Chunking(b, text) ::
      ReceiptsOf(Handle(FRESH, a, l)) == ReceiptsOf(Handle(FRESH, b, l))
  }

  /** Within the byte limit the receipts held are the same for all chunkings of a text, and
      all interleavings with stderr, exactly if skipping rejected lines adds no receipt to
      those at the first rejected line. */
  lemma ReceiptsIgnoreChunkingExactlyWhen(text: string, l: Launch)
    requires |text| <= OUTPUT_LIMIT
    ensures ReceiptsIgnoreChunking(text, l) <==> Skipping(NONE, Lines(text), l) == Stopping(NONE, Lines(text), l)
  {
    if Skipping(NONE, Lines(text), l) == Stopping(NONE, Lines(text), l) {
      forall a | Chunking(a, text)
        ensures ReceiptsOf(Handle(FRESH, a, l)) == Stopping(NONE, Lines(text), l)
      {
        ReceiptsBetween(a, text, l);
      }
    } else {
      ExtremeChunkings(text, l);
    }
  }

  lemma ExtremeChunkings(text: string, l: Launch)
    requires |text| <= OUTPUT_LIMIT
    ensures Chunking([Out(text)], text) && Chunking(Singles(text), text)
    ensures ReceiptsOf(Handle(FRESH, [Out(text)], l)) == Stopping(NONE, Lines(text), l)
    ensures ReceiptsOf(Handle(FRESH, Singles(text), l)) == Skipping(NONE, Lines(text), l)
  {
    assert [Out(text)][1..] == [];
    ConcatEmpty(text);
    HandleSingle(FRESH, Out(text), l);
    DrainIsStopping(NONE, text, l);
    SinglesWrite(text);
    NewlineAtUnique("", 0);
    SinglesSkip(FRESH, "", text, l);
  }
}
