/** The owned native process end to end: the JavaScript parent, the control and receipt
    pipes, the Python controller and the forked child, in every interleaving. */
module OwnedProtocol {
  import opened Wrappers
  import opened LineFraming
  import opened OwnedParent
  import C = OwnedController
  import P = OwnedControlPipe

  /** What is fixed for one launch: the parent's view of it, the ready receipt the
      controller sends and its JSON printer. */
  datatype World = World(launch: Launch, ready: ReadyReceipt, readyLine: string, closedLine: ClosedReceipt -> string)

  /** The environment's contract: reading a printed receipt gives it back, and a printed
      receipt is one line. */
  ghost predicate Faithful(w: World) {
    && w.launch.parse(w.readyLine) == ReadyKind(true, w.ready)
    && '\n' !in w.readyLine
    && (forall c :: w.launch.parse(w.closedLine(c)) == OtherKind(true, c) && '\n' !in w.closedLine(c))
  }

  function Closed(w: World, code: int, signalUsed: bool): (c: ClosedReceipt) {
    ClosedReceipt(w.ready.nonce, w.ready.wrapperPid, w.ready.workerPid, code, signalUsed, true, true)
  }

  /** The bytes of the receipt written last. */
  function LastLine(w: World, sent: C.Log): (text: string) {
    match sent
    case Silent => ""
    case ReadySent(_) => w.readyLine + "\n"
    case ClosedSent(_, code, used) => w.closedLine(Closed(w, code, used)) + "\n"
  }

  function Text(w: World, sent: C.Log): (text: string) {
    if sent.Silent? then "" else Text(w, sent.earlier) + LastLine(w, sent)
  }

  /** `control` is the pipe from the parent to the controller, `written` every byte that
      entered the receipt pipe and `read` how many of them the parent received. */
  datatype System = System(
    controller: C.Controller, parent: Parent, control: P.ControlPipe, written: string, read: nat)

  const INITIAL: System := System(C.INITIAL, FRESH, P.UNUSED, "", 0)

  /** `ParentBreaks` is a parent that dies or closes the pipe, perhaps inside a line, and
      `StrayLine` a line that is not the start line. */
  datatype Step =
    | ControllerAdvances(expired: bool, length: nat)
    | ControllerMoves(step: C.Step)
    | WorkerWrites(text: string)
    | ParentReads(length: nat, alive: ReadyReceipt -> bool)
    | ParentReadsStderr(length: nat)
    | ParentErrors
    | ParentSeesClose
    | ParentStarts
    | ParentStops
    | ParentBreaks(partial: string)
    | StrayLine(line: string)

  predicate Reading(c: C.Controller) {
    c.handler.Idle? && c.pc == C.Looping(C.Read) && !c.control.stopping
  }

  // ----- steps -----

  /** The controller's new state; a receipt it sent enters the pipe. */
  function WithController(w: World, s: System, c: C.Controller): (t: System) {
    s.(controller := c, written := if c.sent == s.controller.sent then s.written else s.written + LastLine(w, c.sent))
  }

  ghost function ReadChunk(w: World, p: Parent, chunk: string, alive: ReadyReceipt -> bool): (q: Parent) {
    Stdout(p, chunk, w.launch.(alive := alive))
  }

  /** The launch with every /proc comparison succeeding: what the receipts alone decide. */
  function Trusting(w: World): (l: Launch) {
    w.launch.(alive := (r: ReadyReceipt) => true)
  }

  /** One statement of the controller's main thread, which may read the control pipe. */
  ghost function AdvanceController(w: World, s: System, expired: bool, length: nat): (t: System) {
    if Reading(s.controller) && s.control.taken <= |s.control.sent| then
      var input := P.Read(s.control, w.launch.nonce, length);
      WithController(w, s, C.Advance(s.controller, expired, input)).(control := P.AfterRead(s.control, length))
    else WithController(w, s, C.Advance(s.controller, expired, C.Nothing))
  }

  /** The parent writes the control pipe until it closed it. */
  function WriteControl(w: World, s: System, step: Step): (q: P.ControlPipe) {
    if s.control.ended then s.control
    else match step
      case ParentStarts =>
        if s.parent.ready.Some? && !s.control.startWritten
        then P.Write(s.control, P.StartLine(w.launch.nonce)).(startWritten := true) else s.control
      case ParentStops => P.Write(s.control, P.StopLine(w.launch.nonce)).(ended := true)
      case ParentBreaks(partial) => if '\n' in partial then s.control else P.Break(s.control, partial)
      case StrayLine(line) =>
        if '\n' in line || line == P.StartLine(w.launch.nonce) then s.control else P.Write(s.control, line)
      case _ => s.control
  }

  ghost function Apply(w: World, s: System, step: Step): (t: System) {
    match step
    case ControllerAdvances(expired, length) => AdvanceController(w, s, expired, length)
    case ControllerMoves(move) =>
      if move.Main? then s else WithController(w, s, C.Apply(s.controller, move))
    case WorkerWrites(text) =>
      var worker := s.controller.worker;
      if worker.Alive? && worker.stage.Executing? && worker.stdout.Pipe? then s.(written := s.written + text) else s
    case ParentReads(length, alive) =>
      if s.read + length <= |s.written| then
        s.(read := s.read + length,
           parent := ReadChunk(w, s.parent, s.written[s.read..s.read + length], alive))
      else s
    case ParentReadsStderr(length) => s.(parent := Stderr(s.parent, length))
    case ParentErrors => s.(parent := s.parent.(failed := true))
    case ParentSeesClose =>
      var worker := s.controller.worker;
      if s.controller.pc.Exited? && s.read == |s.written| && !(worker.Alive? && worker.stdout.Pipe?)
      then s.(parent := s.parent.(wrapperClosed := true)) else s
    case _ => s.(control := WriteControl(w, s, step))
  }

  ghost function Run(w: World, s: System, steps: seq<Step>): (t: System)
    decreases |steps|
  {
    if steps == [] then s else Run(w, Apply(w, s, steps[0]), steps[1..])
  }

  // ----- what every step keeps -----

  /** The receipts the parent accepted are those of one fold over everything it read. */
  ghost predicate Informed(w: World, p: Parent, delivered: string) {
    !p.failed ==>
      && Judge(UNSEEN, Lines(delivered), Trusting(w)) == Accepted(p.ready, p.closed)
      && p.buffer == Rest(delivered)
  }

  /** The commands the main thread has read and not yet obeyed. */
  function Pending(pc: C.Pc): (q: C.Queue) {
    var at := if pc.Looping? then pc.loop else if pc.InStop? then pc.after else C.Poll;
    if at.Lines? || at.SetStarted? || at.SendContinue? then at.queue else C.NoMore
  }

  ghost predicate Inv(w: World, s: System) {
    && C.Inv(s.controller)
    && s.written == Text(w, s.controller.sent)
    && Linked(s) && Commanded(w, s)
    && Informed(w, s.parent, s.written[..s.read])
  }

  /** How the parent's state hangs together with the pipes and the controller. */
  ghost predicate Linked(s: System) {
    && s.read <= |s.written|
    && (s.parent.wrapperClosed ==> s.controller.pc.Exited?)
    && (s.control.startWritten ==> s.parent.ready.Some?)
  }

  /** A start that the controller consumed or still holds was read as the exact line. */
  ghost predicate Commanded(w: World, s: System) {
    && P.Honest(s.control, w.launch.nonce)
    && (P.HasStart(Pending(s.controller.pc)) || s.controller.history.startConsumed ==> P.Seen(s.control, w.launch.nonce))
  }

  lemma {:induction false} JudgeTrusting(v: Verdict, lines: seq<string>, l: Launch, trusting: Launch)
    requires trusting.nonce == l.nonce && trusting.wrapperPid == l.wrapperPid && trusting.parse == l.parse
    requires forall r :: trusting.alive(r)
    requires Judge(v, lines, l).Accepted?
    ensures Judge(v, lines, trusting) == Judge(v, lines, l)
    decreases |lines|
  {
    if lines != [] {
      if JudgeLine(v, lines[0], l).Rejected? {
        RejectionIsFinal(lines[1..], l);
      }
      JudgeTrusting(JudgeLine(v, lines[0], l), lines[1..], l, trusting);
    }
  }

  lemma ReadKeepsInformed(w: World, p: Parent, delivered: string, chunk: string, alive: ReadyReceipt -> bool)
    requires Informed(w, p, delivered)
    ensures var q := ReadChunk(w, p, chunk, alive);
            && Informed(w, q, delivered + chunk)
            && q.wrapperClosed == p.wrapperClosed
            && (p.ready.Some? ==> q.ready.Some?)
  {
    var l := w.launch.(alive := alive);
    var q := ReadChunk(w, p, chunk, alive);
    if p.ready.Some? {
      DrainKeepsReady(p.ready, p.closed, p.buffer + chunk, l);
    }
    if !q.failed {
      DrainJudges(p.ready, p.closed, p.buffer + chunk, l);
      JudgeTrusting(Accepted(p.ready, p.closed), Lines(p.buffer + chunk), l, Trusting(w));
      FramingIsIncremental(delivered, chunk);
      JudgeAppend(UNSEEN, Lines(delivered), Lines(Rest(delivered) + chunk), Trusting(w));
    }
  }

  lemma {:induction false} DrainKeepsReady(ready: Option<ReadyReceipt>, closed: Option<ClosedReceipt>, buffer: string, l: Launch)
    requires ready.Some?
    ensures Drain(ready, closed, buffer, l).ready == ready
    decreases |buffer|
  {
    var at := NewlineAt(buffer);
    if at < |buffer| {
      var v := JudgeLine(Accepted(ready, closed), buffer[..at], l);
      if v.Accepted? {
        DrainKeepsReady(v.ready, v.closed, buffer[at + 1..], l);
      }
    }
  }

  /** A controller step sends at most one receipt and takes a start only from the queue. */
  lemma MoveSends(c: C.Controller, move: C.Step)
    requires !move.Main?
    ensures var d := C.Apply(c, move);
            && d.sent == c.sent
            && (P.HasStart(Pending(d.pc)) ==> P.HasStart(Pending(c.pc)))
            && d.history.startConsumed == c.history.startConsumed
            && (c.pc.Exited? ==> d.pc.Exited?)
  {
  }

  lemma AdvanceSends(c: C.Controller, expired: bool, input: C.Input)
    ensures var d := C.Advance(c, expired, input);
            && (d.sent == c.sent || (!d.sent.Silent? && d.sent.earlier == c.sent))
            && (P.HasStart(Pending(d.pc)) || d.history.startConsumed ==>
                P.HasStart(Pending(c.pc)) || c.history.startConsumed
                || (Reading(c) && input.Received? && P.HasStart(input.commands)))
            && (c.pc.Exited? ==> d.pc.Exited?)
  {
  }

  lemma ControllerKeeps(w: World, s: System, c: C.Controller, control: P.ControlPipe)
    requires Inv(w, s) && C.Inv(c)
    requires c.sent == s.controller.sent || (!c.sent.Silent? && c.sent.earlier == s.controller.sent)
    requires s.controller.pc.Exited? ==> c.pc.Exited?
    requires P.Honest(control, w.launch.nonce) && control.startWritten == s.control.startWritten
    requires P.HasStart(Pending(c.pc)) || c.history.startConsumed ==> P.Seen(control, w.launch.nonce)
    ensures Inv(w, WithController(w, s, c).(control := control))
  {
    var t := WithController(w, s, c);
    assert t.written[..s.read] == s.written[..s.read];
  }

  lemma AdvanceControllerKeeps(w: World, s: System, expired: bool, length: nat)
    requires Inv(w, s)
    ensures Inv(w, AdvanceController(w, s, expired, length))
  {
    var nonce := w.launch.nonce;
    if Reading(s.controller) {
      var input := P.Read(s.control, nonce, length);
      P.ReadKeeps(s.control, nonce, length);
      AdvanceSends(s.controller, expired, input);
      C.AdvanceKeeps(s.controller, expired, input);
      ControllerKeeps(w, s, C.Advance(s.controller, expired, input), P.AfterRead(s.control, length));
    } else {
      AdvanceSends(s.controller, expired, C.Nothing);
      C.AdvanceKeeps(s.controller, expired, C.Nothing);
      ControllerKeeps(w, s, C.Advance(s.controller, expired, C.Nothing), s.control);
    }
  }

  lemma MoveKeeps(w: World, s: System, move: C.Step)
    requires Inv(w, s) && !move.Main?
    ensures Inv(w, WithController(w, s, C.Apply(s.controller, move)))
  {
    MoveSends(s.controller, move);
    C.ApplyKeeps(s.controller, move);
    ControllerKeeps(w, s, C.Apply(s.controller, move), s.control);
  }

  lemma WriteControlKeeps(w: World, s: System, step: Step)
    requires Linked(s) && Commanded(w, s)
    ensures var t := s.(control := WriteControl(w, s, step)); Linked(t) && Commanded(w, t)
  {
    var nonce := w.launch.nonce;
    if !s.control.ended {
      match step {
        case ParentStarts => P.WriteKeeps(s.control, P.StartLine(nonce), nonce);
        case ParentStops =>
          P.LinesDiffer(nonce);
          P.WriteKeeps(s.control, P.StopLine(nonce), nonce);
        case ParentBreaks(partial) =>
          if '\n' !in partial {
            P.BreakKeeps(s.control, partial, nonce);
          }
        case StrayLine(line) =>
          if '\n' !in line {
            P.WriteKeeps(s.control, line, nonce);
          }
        case _ =>
      }
    }
  }

  lemma NextSlice(text: string, from: nat, length: nat)
    requires from + length <= |text|
    ensures text[..from] + text[from..from + length] == text[..from + length]
  {
  }

  lemma ReadInforms(w: World, s: System, length: nat, alive: ReadyReceipt -> bool)
    requires s.read + length <= |s.written| && Informed(w, s.parent, s.written[..s.read])
    ensures var q := ReadChunk(w, s.parent, s.written[s.read..s.read + length], alive);
            && Informed(w, q, s.written[..s.read + length])
            && q.wrapperClosed == s.parent.wrapperClosed
            && (s.parent.ready.Some? ==> q.ready.Some?)
  {
    ReadKeepsInformed(w, s.parent, s.written[..s.read], s.written[s.read..s.read + length], alive);
    NextSlice(s.written, s.read, length);
  }

  lemma ReadKeeps(w: World, s: System, length: nat, alive: ReadyReceipt -> bool)
    requires Inv(w, s) && s.read + length <= |s.written|
    ensures Inv(w, Apply(w, s, ParentReads(length, alive)))
  {
    ReadInforms(w, s, length, alive);
  }

  lemma ApplyKeeps(w: World, s: System, step: Step)
    requires Inv(w, s)
    ensures Inv(w, Apply(w, s, step))
  {
    match step {
      case ControllerAdvances(expired, length) => AdvanceControllerKeeps(w, s, expired, length);
      case ControllerMoves(move) =>
        if !move.Main? {
          MoveKeeps(w, s, move);
        }
      case ParentReads(length, alive) =>
        if s.read + length <= |s.written| {
          ReadKeeps(w, s, length, alive);
        }
      case _ => WriteControlKeeps(w, s, step);
    }
  }

  lemma {:induction false} RunKeeps(w: World, s: System, steps: seq<Step>)
    requires Inv(w, s)
    ensures Inv(w, Run(w, s, steps))
    decreases |steps|
  {
    if steps != [] {
      ApplyKeeps(w, s, steps[0]);
      RunKeeps(w, Apply(w, s, steps[0]), steps[1..]);
    }
  }

  lemma InitialInv(w: World)
    ensures Inv(w, INITIAL)
  {
    P.Unused(w.launch.nonce);
    assert INITIAL.written[..INITIAL.read] == "";
    NewlineAtUnique("", 0);
  }

  // ----- what the parent's steps do -----

  /** The parent's stop puts the stop line into the pipe and closes it. */
  lemma StopIsWritten(w: World, s: System)
    requires P.Honest(s.control, w.launch.nonce) && !s.control.ended
    ensures var q := Apply(w, s, ParentStops).control;
            q.ended && Lines(q.sent) == Lines(s.control.sent) + [P.StopLine(w.launch.nonce)]
  {
    P.OneMoreLine(s.control.sent, P.StopLine(w.launch.nonce));
  }

  /** Once it accepted the ready receipt the parent's start puts the start line into an open
      pipe, once. */
  lemma StartIsWritten(w: World, s: System)
    requires P.Honest(s.control, w.launch.nonce) && !s.control.ended
    requires s.parent.ready.Some? && !s.control.startWritten
    ensures var q := Apply(w, s, ParentStarts).control;
            q.startWritten && !q.ended && Lines(q.sent) == Lines(s.control.sent) + [P.StartLine(w.launch.nonce)]
  {
    P.OneMoreLine(s.control.sent, P.StartLine(w.launch.nonce));
  }

  /** The parent sees the end of the controller exactly once that exited, no child holds the
      receipt pipe, and everything in it was read. */
  lemma CloseIsSeenExactlyWhen(w: World, s: System)
    requires Inv(w, s)
    ensures Apply(w, s, ParentSeesClose).parent.wrapperClosed
       <==> s.parent.wrapperClosed
            || (s.controller.pc.Exited? && s.read == |s.written| && !(s.controller.worker.Alive? && s.controller.worker.stdout.Pipe?))
  {
  }

  /** A spawn or pipe error fails the parent, and no failure is ever undone. */
  lemma {:induction false} FailureIsFinal(w: World, s: System, steps: seq<Step>)
    ensures Apply(w, s, ParentErrors).parent.failed
    ensures s.parent.failed ==> Run(w, s, steps).parent.failed && !CleanupSafe(Run(w, s, steps).parent)
    decreases |steps|
  {
    if steps != [] {
      FailureIsFinal(w, Apply(w, s, steps[0]), steps[1..]);
    }
  }

  // ----- main results -----

  /** Lines(prefix) is a prefix of the lines of the whole. */
  lemma PrefixLines(text: string, read: nat)
    requires read <= |text|
    ensures Lines(text[..read]) <= Lines(text)
  {
    FramingIsIncremental(text[..read], text[read..]);
    assert text[..read] + text[read..] == text;
  }

  /** What the parent can have accepted after any prefix of what was sent. */
  lemma OnlySentReceiptsAreAccepted(w: World, sent: C.Log, read: nat)
    requires Faithful(w)
    requires C.NoneClosed(sent) || C.OneClosed(sent)
    requires read <= |Text(w, sent)|
    ensures var v := Judge(UNSEEN, Lines(Text(w, sent)[..read]), Trusting(w));
            v.Accepted? && v.closed.Some? ==>
              sent.ClosedSent? && v.closed.value == Closed(w, sent.rootExitCode, sent.pidfdSignalUsed)
  {
    var l := Trusting(w);
    var text := Text(w, sent);
    var lines := Lines(text[..read]);
    PrefixLines(text, read);
    LinesOfText(w, sent);
    var all := Lines(text);
    assert lines == all[..|lines|];
    if |lines| == 1 {
      JudgeOne(UNSEEN, lines, l);
    } else if |lines| == 2 {
      JudgeTwo(UNSEEN, lines, l);
    }
  }

  lemma JudgeOne(v: Verdict, lines: seq<string>, l: Launch)
    requires |lines| == 1
    ensures Judge(v, lines, l) == JudgeLine(v, lines[0], l)
  {
    assert Judge(v, lines, l) == Judge(JudgeLine(v, lines[0], l), lines[1..], l);
  }

  lemma JudgeTwo(v: Verdict, lines: seq<string>, l: Launch)
    requires |lines| == 2
    ensures Judge(v, lines, l) == JudgeLine(JudgeLine(v, lines[0], l), lines[1], l)
  {
    assert Judge(v, lines, l) == Judge(JudgeLine(v, lines[0], l), lines[1..], l);
    JudgeOne(JudgeLine(v, lines[0], l), lines[1..], l);
  }

  lemma LinesOfText(w: World, sent: C.Log)
    requires Faithful(w)
    requires C.NoneClosed(sent) || C.OneClosed(sent)
    ensures var ready := if sent.Silent? || (sent.ClosedSent? && sent.earlier.Silent?) then [] else [w.readyLine];
            var closed := if sent.ClosedSent?
                          then [w.closedLine(Closed(w, sent.rootExitCode, sent.pidfdSignalUsed))] else [];
            Lines(Text(w, sent)) == ready + closed
  {
    NewlineAtUnique("", 0);
    ConcatEmpty(LastLine(w, sent));
    if sent.ReadySent? {
      OneLine(w.readyLine);
    } else if sent.ClosedSent? {
      var line := w.closedLine(Closed(w, sent.rootExitCode, sent.pidfdSignalUsed));
      OneLine(line);
      if sent.earlier.ReadySent? {
        TwoLines(w.readyLine, line);
        ConcatEmpty(w.readyLine + "\n");
        assert Text(w, sent.earlier) == w.readyLine + "\n";
      }
    }
  }

  lemma OneLine(line: string)
    requires '\n' !in line
    ensures Lines(line + "\n") == [line]
  {
    NewlineAtUnique("", 0);
    LineThenRest(line, "");
    ConcatEmpty(line + "\n");
  }

  lemma TwoLines(first: string, second: string)
    requires '\n' !in first && '\n' !in second
    ensures Lines((first + "\n") + (second + "\n")) == [first] + [second]
  {
    LineThenRest(first, second + "\n");
    OneLine(second);
  }

  /** If the parent believes that cleanup is safe, the controller has exited after it
      waited for the child and closed the pidfd, the receipt carries the child's real exit
      code, and a receipt without signals means that none was sent: in every interleaving. */
  lemma SafeCleanupMeansReaped(w: World, steps: seq<Step>)
    requires Faithful(w)
    ensures var s := Run(w, INITIAL, steps);
            CleanupSafe(s.parent) ==>
              && s.controller.pc.Exited?
              && s.controller.worker == C.Reaped(s.parent.closed.value.rootExitCode)
              && s.controller.owned.waited && !s.controller.owned.pidfdOpen
              && (!s.parent.closed.value.pidfdSignalUsed ==> !s.controller.history.termSent)
  {
    InitialInv(w);
    RunKeeps(w, INITIAL, steps);
    var s := Run(w, INITIAL, steps);
    if CleanupSafe(s.parent) {
      OnlySentReceiptsAreAccepted(w, s.controller.sent, s.read);
    }
  }

  /** The child's executable runs only if the controller read the exact start line, as one of
      the complete lines of the bytes it took from the pipe, and consumed it while neither
      started nor stopping; the parent wrote it, after it had accepted the ready receipt of
      the pinned child; and nothing the child writes enters the receipt pipe. */
  lemma ExecutesOnlyOnStart(w: World, steps: seq<Step>)
    ensures var s := Run(w, INITIAL, steps);
            && (s.controller.history.ran ==>
                && s.controller.history.startConsumed
                && P.Seen(s.control, w.launch.nonce)
                && s.control.startWritten && s.parent.ready.Some?)
            && s.written == Text(w, s.controller.sent)
  {
    InitialInv(w);
    RunKeeps(w, INITIAL, steps);
    var s := Run(w, INITIAL, steps);
    if s.controller.history.ran {
      P.SeenWasWritten(s.control, w.launch.nonce);
    }
  }

  /** No child is left behind in its SIGSTOP, in any interleaving: while the loop runs with no
      signal handler active, a controller that stops has sent a TERM, and unless it is just
      about to continue the child it started, the child has been continued. */
  lemma StoppingContinuesTheChild(w: World, steps: seq<Step>)
    ensures var c := Run(w, INITIAL, steps).controller;
            c.control.stopping && c.handler.Idle? && (c.pc.Looping? || (c.pc.InStop? && c.pc.stop.Check?)) ==>
              && C.TermPending(c.worker)
              && (c.pc.InStop? || !c.pc.loop.SendContinue? ==> !C.Held(c.worker))
  {
    InitialInv(w);
    RunKeeps(w, INITIAL, steps);
  }

  /** The other way round, cleanup is judged safe whenever everything went right: the
      controller exited after its two receipts, the parent read both without anything failing,
      and saw the close. */
  lemma ReapedMeansSafeCleanup(w: World, steps: seq<Step>)
    requires Faithful(w)
    ensures var s := Run(w, INITIAL, steps);
            !s.parent.failed && s.parent.wrapperClosed && s.read == |s.written|
            && s.controller.sent.ClosedSent? && s.controller.sent.earlier.ReadySent? ==>
              CleanupSafe(s.parent)
  {
    InitialInv(w);
    RunKeeps(w, INITIAL, steps);
    var s := Run(w, INITIAL, steps);
    if !s.parent.failed && s.parent.wrapperClosed && s.read == |s.written|
       && s.controller.sent.ClosedSent? && s.controller.sent.earlier.ReadySent? {
      LinesOfText(w, s.controller.sent);
      assert s.written[..s.read] == s.written;
      BothReceiptsRead(w, s);
    }
  }

  lemma BothReceiptsRead(w: World, s: System)
    requires Faithful(w) && Inv(w, s) && !s.parent.failed && s.parent.wrapperClosed
    requires var c := s.controller.sent;
             c.ClosedSent? && Judge(UNSEEN, Lines(s.written), Trusting(w)) == Accepted(s.parent.ready, s.parent.closed)
             && Lines(s.written) == [w.readyLine] + [w.closedLine(Closed(w, c.rootExitCode, c.pidfdSignalUsed))]
    ensures CleanupSafe(s.parent)
  {
    var lines := Lines(s.written);
    JudgeTwoLines(UNSEEN, lines, Trusting(w));
  }

  function ClosedReceipts(sent: C.Log): (n: nat) {
    match sent
    case Silent => 0
    case ReadySent(earlier) => ClosedReceipts(earlier)
    case ClosedSent(earlier, _, _) => ClosedReceipts(earlier) + 1
  }

  /** On every path, including exceptions and signals, at most one closed receipt is sent,
      and only after the wait and after the pidfd was closed. */
  lemma AtMostOneClosedReceipt(w: World, steps: seq<Step>)
    ensures var c := Run(w, INITIAL, steps).controller;
            && ClosedReceipts(c.sent) <= 1
            && (ClosedReceipts(c.sent) == 1 ==> c.worker.Reaped? && c.owned.waited && !c.owned.pidfdOpen)
  {
    InitialInv(w);
    RunKeeps(w, INITIAL, steps);
  }
}
