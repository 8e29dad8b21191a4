/** The JavaScript parent of an owned native process: receipts read from the
    controller's pipe, framed line by line, and the verdict that allows cleanup. */
module OwnedParent {
  import opened Wrappers
  import opened LineFraming

  const MAX_SAFE_INTEGER: int := 9007199254740991
  const OUTPUT_LIMIT: nat := 65536

  datatype ReadyReceipt = ReadyReceipt(
    nonce: string, wrapperPid: int, workerPid: int, parentPid: int, birth: string,
    groupId: int, sessionId: int, pidfdPinnedBeforeExec: bool)

  datatype ClosedReceipt = ClosedReceipt(
    nonce: string, wrapperPid: int, workerPid: int, rootExitCode: int,
    pidfdSignalUsed: bool, pidfdClosed: bool, workerWaited: bool)

  /** What `JSON.parse` makes of a line. `exact` says that the value has exactly the
      keys, kind and value types its verifier compares first. */
  datatype Message =
    | NotJson
    | ReadyKind(exact: bool, ready: ReadyReceipt)
    | OtherKind(exact: bool, closed: ClosedReceipt)

  /** The fresh nonce: 32 hexadecimal digits, of which the length and the absence of a newline
      matter here. */
  type Nonce = s: string | |s| == 32 && '\n' !in s witness "00000000000000000000000000000000"

  /** One launch: the fresh nonce, the spawned controller's pid, the JSON reader and the
      comparison of a live /proc identity with the birth the receipt names. */
  datatype Launch = Launch(nonce: Nonce, wrapperPid: int, parse: string -> Message, alive: ReadyReceipt -> bool)

  predicate SafeInteger(n: int) {
    -MAX_SAFE_INTEGER <= n <= MAX_SAFE_INTEGER
  }

  predicate PositivePid(n: int) {
    SafeInteger(n) && n > 0
  }

  predicate VerifyReady(value: ReadyReceipt, nonce: string, wrapperPid: int) {
    && value.nonce == nonce
    && value.wrapperPid == wrapperPid
    && value.parentPid == wrapperPid
    && value.pidfdPinnedBeforeExec
    && |value.birth| > 0 && (forall k | 0 <= k < |value.birth| :: '0' <= value.birth[k] <= '9')
    && PositivePid(value.workerPid) && PositivePid(value.groupId) && PositivePid(value.sessionId)
  }

  predicate VerifyClosed(value: ClosedReceipt, ready: ReadyReceipt) {
    && value.nonce == ready.nonce
    && value.wrapperPid == ready.wrapperPid
    && value.workerPid == ready.workerPid
    && value.pidfdClosed
    && value.workerWaited
    && SafeInteger(value.rootExitCode)
  }

  // ----- the state of the event handlers -----

  datatype Parent = Parent(
    ready: Option<ReadyReceipt>, closed: Option<ClosedReceipt>,
    wrapperClosed: bool, failed: bool, bytes: nat, buffer: string)

  const FRESH: Parent := Parent(None, None, false, false, 0, "")

  datatype Verdict = Rejected | Accepted(ready: Option<ReadyReceipt>, closed: Option<ClosedReceipt>)

  /** The rule for one line; `Rejected` is where the handler throws. */
  function JudgeLine(v: Verdict, line: string, l: Launch): (w: Verdict) {
    if v.Rejected? then Rejected
    else match l.parse(line)
      case NotJson => Rejected
      case ReadyKind(exact, r) =>
        if v.ready.None? && exact && VerifyReady(r, l.nonce, l.wrapperPid) && l.alive(r)
        then Accepted(Some(r), v.closed) else Rejected
      case OtherKind(exact, c) =>
        if v.ready.Some? && v.closed.None? && exact && VerifyClosed(c, v.ready.value)
        then Accepted(v.ready, Some(c)) else Rejected
  }

  /** What the framing loop leaves: the receipts seen, whether a line threw, the text unread. */
  datatype Drained = Drained(ready: Option<ReadyReceipt>, closed: Option<ClosedReceipt>, threw: bool, rest: string)

  /** The framing loop: lines are taken until the buffer holds no newline or one throws. */
  ghost function Drain(ready: Option<ReadyReceipt>, closed: Option<ClosedReceipt>, buffer: string, l: Launch): (d: Drained)
    decreases |buffer|
  {
    var at := NewlineAt(buffer);
    if at == |buffer| then Drained(ready, closed, false, buffer)
    else
      var v := JudgeLine(Accepted(ready, closed), buffer[..at], l);
      if v.Rejected? then Drained(ready, closed, true, buffer[at + 1..])
      else Drain(v.ready, v.closed, buffer[at + 1..], l)
  }

  ghost function Stdout(p: Parent, chunk: string, l: Launch): (q: Parent) {
    var bytes := p.bytes + |chunk|;
    if bytes > OUTPUT_LIMIT then p.(bytes := bytes, failed := true)
    else
      var d := Drain(p.ready, p.closed, p.buffer + chunk, l);
      Parent(d.ready, d.closed, p.wrapperClosed, p.failed || d.threw, bytes, d.rest)
  }

  function Stderr(p: Parent, length: nat): (q: Parent) {
    var counted := p.(bytes := p.bytes + length);
    if counted.bytes > OUTPUT_LIMIT then counted.(failed := true) else counted
  }

  predicate CleanupSafe(p: Parent) {
    && p.wrapperClosed && p.ready.Some? && p.closed.Some? && !p.failed
    && VerifyClosed(p.closed.value, p.ready.value)
  }

  // ----- the reference verdict: a fold over the lines of the whole stream -----

  function Judge(v: Verdict, lines: seq<string>, l: Launch): (w: Verdict)
    decreases |lines|
  {
    if lines == [] then v else Judge(JudgeLine(v, lines[0], l), lines[1..], l)
  }

  const UNSEEN: Verdict := Accepted(None, None)

  lemma {:induction false} JudgeAppend(v: Verdict, a: seq<string>, b: seq<string>, l: Launch)
    ensures Judge(v, a + b, l) == Judge(Judge(v, a, l), b, l)
    decreases |a|
  {
    if a == [] {
      assert a + b == b;
    } else {
      assert (a + b)[0] == a[0];
      assert (a + b)[1..] == a[1..] + b;
      JudgeAppend(JudgeLine(v, a[0], l), a[1..], b, l);
    }
  }

  lemma JudgeCons(v: Verdict, line: string, lines: seq<string>, l: Launch)
    ensures Judge(v, [line] + lines, l) == Judge(JudgeLine(v, line, l), lines, l)
  {
    assert ([line] + lines)[1..] == lines;
  }

  lemma {:induction false} RejectionIsFinal(lines: seq<string>, l: Launch)
    ensures Judge(Rejected, lines, l) == Rejected
    decreases |lines|
  {
    if lines != [] {
      RejectionIsFinal(lines[1..], l);
    }
  }

  /** Draining a buffer reaches the fold's verdict over the buffer's lines. */
  lemma {:induction false} DrainJudges(ready: Option<ReadyReceipt>, closed: Option<ClosedReceipt>, buffer: string, l: Launch)
    ensures var v := Judge(Accepted(ready, closed), Lines(buffer), l);
            var d := Drain(ready, closed, buffer, l);
            if v.Rejected? then d.threw
            else !d.threw && Accepted(d.ready, d.closed) == v && d.rest == Rest(buffer)
    decreases |buffer|
  {
    var at := NewlineAt(buffer);
    if at < |buffer| {
      var line, rest := buffer[..at], buffer[at + 1..];
      var v := JudgeLine(Accepted(ready, closed), line, l);
      JudgeCons(Accepted(ready, closed), line, Lines(rest), l);
      if v.Accepted? {
        DrainJudges(v.ready, v.closed, rest, l);
      } else {
        RejectionIsFinal(Lines(rest), l);
      }
    }
  }

  /** The handlers' state after stdout `text` and `total` bytes on both pipes, however
      they were cut into chunks and interleaved. */
  ghost predicate Reflects(p: Parent, text: string, total: nat, l: Launch) {
    var v := Judge(UNSEEN, Lines(text), l);
    && p.bytes == total
    && (p.failed <==> total > OUTPUT_LIMIT || v.Rejected?)
    && (!p.failed ==> v == Accepted(p.ready, p.closed) && p.buffer == Rest(text))
  }

  lemma StdoutReflects(p: Parent, text: string, total: nat, chunk: string, l: Launch)
    requires Reflects(p, text, total, l)
    ensures Reflects(Stdout(p, chunk, l), text + chunk, total + |chunk|, l)
    ensures Stdout(p, chunk, l).wrapperClosed == p.wrapperClosed
  {
    FramingIsIncremental(text, chunk);
    JudgeAppend(UNSEEN, Lines(text), Lines(Rest(text) + chunk), l);
    RejectionIsFinal(Lines(Rest(text) + chunk), l);
    DrainJudges(p.ready, p.closed, p.buffer + chunk, l);
  }

  datatype Event = Out(chunk: string) | Err(length: nat)

  ghost function HandleOne(p: Parent, e: Event, l: Launch): (q: Parent) {
    match e
    case Out(chunk) => Stdout(p, chunk, l)
    case Err(length) => Stderr(p, length)
  }

  ghost function Handle(p: Parent, events: seq<Event>, l: Launch): (q: Parent)
    decreases |events|
  {
    if events == [] then p else Handle(HandleOne(p, events[0], l), events[1..], l)
  }

  function Written(e: Event): (text: string) {
    if e.Out? then e.chunk else ""
  }

  function Size(e: Event): (size: nat) {
    if e.Out? then |e.chunk| else e.length
  }

  /** Everything written to stdout, in order. */
  function Text(events: seq<Event>): (text: string) {
    if events == [] then "" else Written(events[0]) + Text(events[1..])
  }

  /** All bytes seen on stdout and stderr. */
  function Total(events: seq<Event>): (total: nat) {
    if events == [] then 0 else Size(events[0]) + Total(events[1..])
  }

  lemma OneReflects(p: Parent, e: Event, text: string, total: nat, l: Launch)
    requires Reflects(p, text, total, l)
    ensures Reflects(HandleOne(p, e, l), text + Written(e), total + Size(e), l)
    ensures HandleOne(p, e, l).wrapperClosed == p.wrapperClosed
  {
    if e.Out? {
      StdoutReflects(p, text, total, e.chunk, l);
    } else {
      ConcatEmpty(text);
    }
  }

  lemma {:induction false} HandleReflects(p: Parent, events: seq<Event>, text: string, total: nat, l: Launch)
    requires Reflects(p, text, total, l)
    ensures Reflects(Handle(p, events, l), text + Text(events), total + Total(events), l)
    ensures Handle(p, events, l).wrapperClosed == p.wrapperClosed
    decreases |events|
  {
    if events == [] {
      ConcatEmpty(text);
    } else {
      var e := events[0];
      OneReflects(p, e, text, total, l);
      HandleReflects(HandleOne(p, e, l), events[1..], text + Written(e), total + Size(e), l);
      ConcatAssociates(text, Written(e), Text(events[1..]));
    }
  }

  /** Failure is decided by the byte total and the lines alone: for every chunking and
      every interleaving with stderr the handlers agree with one fold over the text. */
  lemma FailedExactlyWhen(events: seq<Event>, l: Launch)
    ensures var p := Handle(FRESH, events, l);
            var v := Judge(UNSEEN, Lines(Text(events)), l);
            && (p.failed <==> Total(events) > OUTPUT_LIMIT || v.Rejected?)
            && (!p.failed ==> v == Accepted(p.ready, p.closed) && p.buffer == Rest(Text(events)))
  {
    HandleReflects(FRESH, events, "", 0, l);
    ConcatEmpty(Text(events));
  }

  /** Two chunkings of the same output reach the same cleanup verdict. */
  lemma CleanupVerdictIgnoresChunking(a: seq<Event>, b: seq<Event>, l: Launch)
    requires Text(a) == Text(b) && Total(a) == Total(b)
    ensures CleanupSafe(Handle(FRESH, a, l).(wrapperClosed := true))
       <==> CleanupSafe(Handle(FRESH, b, l).(wrapperClosed := true))
  {
    FailedExactlyWhen(a, l);
    FailedExactlyWhen(b, l);
  }

  // ----- exactly which outputs are safe -----

  /** The lines are a ready receipt and then a closed one, both right. */
  ghost predicate RightReceipts(lines: seq<string>, l: Launch, r: ReadyReceipt, c: ClosedReceipt) {
    && |lines| == 2
    && l.parse(lines[0]) == ReadyKind(true, r) && VerifyReady(r, l.nonce, l.wrapperPid) && l.alive(r)
    && l.parse(lines[1]) == OtherKind(true, c) && VerifyClosed(c, r)
  }

  function Count(v: Verdict): (n: nat)
    requires v.Accepted?
  {
    (if v.ready.Some? then 1 else 0) + (if v.closed.Some? then 1 else 0)
  }

  /** Every accepted line adds one receipt. */
  lemma {:induction false} AcceptedLinesCount(v: Verdict, lines: seq<string>, l: Launch)
    requires v.Accepted? && Judge(v, lines, l).Accepted?
    ensures Count(Judge(v, lines, l)) == Count(v) + |lines|
    decreases |lines|
  {
    if lines != [] {
      if JudgeLine(v, lines[0], l).Rejected? {
        RejectionIsFinal(lines[1..], l);
      }
      AcceptedLinesCount(JudgeLine(v, lines[0], l), lines[1..], l);
    }
  }

  lemma JudgeTwoLines(v: Verdict, lines: seq<string>, l: Launch)
    requires |lines| == 2
    ensures Judge(v, lines, l) == JudgeLine(JudgeLine(v, lines[0], l), lines[1], l)
  {
    var w := JudgeLine(v, lines[0], l);
    assert Judge(v, lines, l) == Judge(w, lines[1..], l);
    assert Judge(w, lines[1..], l) == Judge(JudgeLine(w, lines[1], l), lines[1..][1..], l);
  }

  /** The fold ends with both receipts exactly for the two right lines, in this order. */
  lemma BothReceiptsExactlyWhen(lines: seq<string>, l: Launch, r: ReadyReceipt, c: ClosedReceipt)
    ensures Judge(UNSEEN, lines, l) == Accepted(Some(r), Some(c)) <==> RightReceipts(lines, l, r, c)
  {
    if Judge(UNSEEN, lines, l) == Accepted(Some(r), Some(c)) {
      AcceptedLinesCount(UNSEEN, lines, l);
    }
    if |lines| == 2 {
      JudgeTwoLines(UNSEEN, lines, l);
    }
  }

  /** For every chunking: after the controller's close, cleanup is judged safe exactly when
      at most 65536 bytes arrived and the complete lines are a right ready receipt and a right
      closed receipt, nothing more. */
  lemma CleanupSafeExactlyWhen(events: seq<Event>, l: Launch)
    ensures CleanupSafe(Handle(FRESH, events, l).(wrapperClosed := true))
       <==> Total(events) <= 65536 && exists r, c :: RightReceipts(Lines(Text(events)), l, r, c)
  {
    var p := Handle(FRESH, events, l);
    var lines := Lines(Text(events));
    FailedExactlyWhen(events, l);
    if CleanupSafe(p.(wrapperClosed := true)) {
      BothReceiptsExactlyWhen(lines, l, p.ready.value, p.closed.value);
    }
    if Total(events) <= 65536 && exists r, c :: RightReceipts(lines, l, r, c) {
      var r, c :| RightReceipts(lines, l, r, c);
      BothReceiptsExactlyWhen(lines, l, r, c);
    }
  }

  lemma AllDigits(text: string)
    ensures (forall k | 0 <= k < |text| :: '0' <= text[k] <= '9') <==> (forall digit | digit in text :: digit in "0123456789")
  {
    assert forall digit: char :: digit in "0123456789" <==> '0' <= digit <= '9';
    assert forall k | 0 <= k < |text| :: text[k] in text;
  }

  /** Right receipts name one controller and one child, of this launch, pinned before it
      executed, waited for, and with its pidfd closed; and that is all that is asked of them. */
  lemma RightReceiptsExactlyWhen(lines: seq<string>, l: Launch, r: ReadyReceipt, c: ClosedReceipt)
    ensures RightReceipts(lines, l, r, c) <==>
              && |lines| == 2 && l.parse(lines[0]) == ReadyKind(true, r) && l.parse(lines[1]) == OtherKind(true, c)
              && l.alive(r)
              && r.nonce == l.nonce == c.nonce && r.wrapperPid == r.parentPid == l.wrapperPid == c.wrapperPid
              && r.workerPid == c.workerPid
              && (forall n | n in [r.workerPid, r.groupId, r.sessionId] :: 1 <= n <= 9007199254740991)
              && r.birth != "" && (forall digit | digit in r.birth :: digit in "0123456789")
              && r.pidfdPinnedBeforeExec && c.pidfdClosed && c.workerWaited
              && -9007199254740991 <= c.rootExitCode <= 9007199254740991
  {
    AllDigits(r.birth);
    assert r.workerPid in [r.workerPid, r.groupId, r.sessionId];
    assert r.groupId in [r.workerPid, r.groupId, r.sessionId] && r.sessionId in [r.workerPid, r.groupId, r.sessionId];
  }

  /** The handlers' whole state is NOT independent of the chunking once a line was
      rejected: a second line in the same chunk is left unread, in the next it is parsed. */
  lemma StateDependsOnChunking(l: Launch, bad: string, good: string, r: ReadyReceipt)
    requires '\n' !in bad && '\n' !in good && |bad| + |good| < 1000
    requires l.parse(bad) == NotJson && l.parse(good) == ReadyKind(true, r)
    requires VerifyReady(r, l.nonce, l.wrapperPid) && l.alive(r)
    ensures Handle(FRESH, [Out(bad + "\n" + good + "\n")], l).ready == None
    ensures Handle(FRESH, [Out(bad + "\n"), Out(good + "\n")], l).ready == Some(r)
  {
    var first, second := bad + "\n", good + "\n";
    ConcatAssociates(first, good, "\n");
    HandleSingle(FRESH, Out(first + second), l);
    BadLineStops(bad, second, l);
    ConcatEmpty(first);
    BadLineStops(bad, "", l);
    var halfway := Stdout(FRESH, first, l);
    GoodLineIsTaken(halfway, good, r, l);
    var two := [Out(first), Out(second)];
    assert two[1..] == [Out(second)];
    HandleSingle(halfway, Out(second), l);
    assert Handle(FRESH, two, l) == Handle(halfway, [Out(second)], l);
  }

  lemma BadLineStops(bad: string, more: string, l: Launch)
    requires '\n' !in bad && |bad| + |more| < 1001
    requires l.parse(bad) == NotJson
    ensures var q := Stdout(FRESH, bad + "\n" + more, l);
            q.ready == None && q.buffer == more && q.bytes == |bad| + 1 + |more|
  {
    DrainLine(None, None, bad + "\n" + more, bad, more, l);
    ConcatEmpty(bad + "\n" + more);
  }

  lemma GoodLineIsTaken(p: Parent, good: string, r: ReadyReceipt, l: Launch)
    requires p.buffer == "" && p.ready == None && p.bytes + |good| < OUTPUT_LIMIT
    requires '\n' !in good && l.parse(good) == ReadyKind(true, r)
    requires VerifyReady(r, l.nonce, l.wrapperPid) && l.alive(r)
    ensures Stdout(p, good + "\n", l).ready == Some(r)
  {
    ConcatEmpty(good + "\n");
    DrainLine(None, p.closed, good + "\n", good, "", l);
  }

  lemma HandleSingle(p: Parent, e: Event, l: Launch)
    ensures Handle(p, [e], l) == HandleOne(p, e, l)
  {
    var one := [e];
    assert one[1..] == [];
    assert Handle(p, one, l) == Handle(HandleOne(p, e, l), [], l);
  }

  /** One turn of the framing loop over a buffer that starts with a complete line. */
  lemma DrainLine(ready: Option<ReadyReceipt>, closed: Option<ClosedReceipt>,
                                     buffer: string, line: string, more: string, l: Launch)
    requires '\n' !in line
    requires buffer == line + "\n" + more
    ensures var v := JudgeLine(Accepted(ready, closed), line, l);
            Drain(ready, closed, buffer, l)
            == if v.Rejected? then Drained(ready, closed, true, more) else Drain(v.ready, v.closed, more, l)
  {
    NewlineAtUnique(buffer, |line|);
    assert buffer[..|line|] == line && buffer[|line| + 1..] == more;
  }

  // ----- the handlers themselves -----

  class OwnedProcess {
    const launch: Launch
    var ready: Option<ReadyReceipt>
    var closed: Option<ClosedReceipt>
    var wrapperClosed: bool
    var failed: bool
    var bytes: nat
    var buffer: string

    ghost function View(): Parent
      reads this
    {
      Parent(ready, closed, wrapperClosed, failed, bytes, buffer)
    }

    constructor (launch: Launch)
      ensures View() == FRESH
    {
      this.launch := launch;
      ready, closed, wrapperClosed, failed, bytes, buffer := None, None, false, false, 0, "";
    }

    method OnStdout(chunk: string)
      modifies this
      ensures View() == Stdout(old(View()), chunk, launch)
    {
      bytes := bytes + |chunk|;
      if bytes > OUTPUT_LIMIT {
        failed := true;
        return;
      }
      buffer := buffer + chunk;
      ghost var goal := Drain(ready, closed, buffer, launch);
      var at := IndexOfNewline(buffer);
      while at < |buffer|
        invariant at == NewlineAt(buffer)
        invariant Drain(ready, closed, buffer, launch) == goal
        invariant failed == old(failed) && wrapperClosed == old(wrapperClosed) && bytes == old(bytes) + |chunk|
        decreases |buffer|
      {
        var line := buffer[..at];
        buffer := buffer[at + 1..];
        var accepted := TakeLine(line);
        if !accepted {
          return;
        }
        at := IndexOfNewline(buffer);
      }
    }

    /** One line of the framing loop, with the handler's catch clause. */
    method TakeLine(line: string) returns (accepted: bool)
      modifies this
      ensures var v := JudgeLine(Accepted(old(ready), old(closed)), line, launch);
              && accepted == v.Accepted?
              && View() == if accepted then old(View()).(ready := v.ready, closed := v.closed)
                           else old(View()).(failed := true)
    {
      accepted := false;
      match launch.parse(line) {
        case NotJson =>
        case ReadyKind(exact, r) =>
          if ready.None? && exact && VerifyReady(r, launch.nonce, launch.wrapperPid) && launch.alive(r) {
            ready := Some(r);
            return true;
          }
        case OtherKind(exact, c) =>
          if ready.Some? && closed.None? && exact && VerifyClosed(c, ready.value) {
            closed := Some(c);
            return true;
          }
      }
      failed := true;
    }

    method OnStderr(length: nat)
      modifies this
      ensures View() == Stderr(old(View()), length)
    {
      bytes := bytes + length;
      if bytes > OUTPUT_LIMIT {
        failed := true;
      }
    }

    /** Spawn errors and errors of the control pipe. */
    method OnError()
      modifies this
      ensures View() == old(View()).(failed := true)
    {
      failed := true;
    }

    method OnClose()
      modifies this
      ensures View() == old(View()).(wrapperClosed := true)
    {
      wrapperClosed := true;
    }

    method AssertCleanupSafe() returns (safe: bool)
      ensures safe <==> CleanupSafe(View())
    {
      safe := wrapperClosed && ready.Some? && closed.Some? && !failed && VerifyClosed(closed.value, ready.value);
    }
  }
}
