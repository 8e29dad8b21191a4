/** The Python controller of an owned native process and the child it forks, as one
    transition system. The controller's main thread advances one statement at a time; a
    signal handler may run between any two statements, any statement may raise, and the
    child takes steps of its own. The child is stopped before exec, pinned by a pidfd and
    continued either by the exact start command or after a TERM that ends it. */
module OwnedController {
  // ----- the child -----

  /** Where the child's descriptor 1 points: the receipt pipe until it is redirected. */
  datatype Sink = Pipe | DevNull

  datatype Stage = Forked | Stopped | Resumed | Executing

  /** `term` is a TERM that is pending or was delivered. */
  datatype Worker =
    | Unborn
    | Alive(stage: Stage, term: bool, stdout: Sink)
    | Zombie(code: int)
    | Reaped(code: int)

  function Terminate(w: Worker): (v: Worker) {
    if w.Alive? then w.(term := true) else w
  }

  function Continue(w: Worker): (v: Worker) {
    if w.Alive? && w.stage.Stopped? then w.(stage := Resumed) else w
  }

  // ----- the controller -----

  datatype Command = Start | Stop | Garbage

  /** What one read of the control pipe delivers: nothing, the end, whole commands, or more
      than the buffer may hold, which an assertion refuses. */
  datatype Input = Nothing | Eof | Oversized | Received(commands: Queue)

  datatype StartPc = Fork | Own | Pin | AwaitStop | SendReady | Install
  /** Commands read but not yet obeyed. */
  datatype Queue = NoMore | Next(command: Command, rest: Queue)

  datatype LoopPc =
    | Poll | Timeout | Read | LateTimeout | Throw
    | Lines(queue: Queue) | SetStarted(queue: Queue) | SendContinue(queue: Queue)
  datatype StopPc = Check | Set | Term | Cont
  datatype ClosePc = Found | Wait | Close | Send
  datatype RecoverPc = Inspect | RecoverTerm | RecoverContinue | RecoverWait | Leave | SleepForever

  /** The statement the main thread executes next. `InStop` is inside `stop()`, which
      returns to `after`; `Closing` and `RecoverClosing` hold the child's exit code. */
  datatype Pc =
    | Starting(start: StartPc)
    | Looping(loop: LoopPc)
    | InStop(stop: StopPc, after: LoopPc)
    | Closing(close: ClosePc, code: int)
    | Returning
    | Recovering(recover: RecoverPc)
    | RecoverClosing(close: ClosePc, code: int)
    | Exited

  datatype Handler = Idle | AtTerm | AtCont

  /** The receipts written to the pipe so far, the latest one outermost: the ready
      receipt and closed receipts with the exit code and signal flag they report. */
  datatype Log = Silent | ReadySent(earlier: Log) | ClosedSent(earlier: Log, rootExitCode: int, pidfdSignalUsed: bool)

  /** The handlers are installed, and the two flags of the event loop. */
  datatype Control = Control(installed: bool, started: bool, stopping: bool)

  /** The globals the recovery code reads; the pidfd is recorded exactly while it is open. */
  datatype Owned = Owned(child: bool, waited: bool, pidfdOpen: bool)

  /** History: the start command was consumed while neither started nor stopping, a TERM
      was sent, the child ran exec. */
  datatype History = History(startConsumed: bool, termSent: bool, ran: bool)

  datatype Controller = Controller(
    pc: Pc, handler: Handler, control: Control, owned: Owned, worker: Worker, sent: Log, history: History)

  const INITIAL: Controller :=
    Controller(Starting(Fork), Idle, Control(false, false, false), Owned(false, false, false), Unborn, Silent,
               History(false, false, false))

  predicate InRecovery(pc: Pc) {
    pc.Recovering? || pc.RecoverClosing?
  }

  /** An exception: `main` falls into the recovery code; inside it nothing catches. */
  function Fault(c: Controller): (d: Controller) {
    if c.pc.Exited? then c
    else c.(pc := if InRecovery(c.pc) then Exited else Recovering(Inspect), handler := Idle)
  }

  function AdvanceStart(c: Controller): (d: Controller)
    requires c.pc.Starting?
  {
    match c.pc.start
    case Fork => c.(worker := Alive(Forked, false, Pipe), pc := Starting(Own))
    case Own => c.(owned := c.owned.(child := true), pc := Starting(Pin))
    case Pin => c.(owned := c.owned.(pidfdOpen := true), pc := Starting(AwaitStop))
    case AwaitStop =>
      if c.worker.Zombie? then Fault(c.(worker := Reaped(c.worker.code)))
      else if c.worker.Alive? && c.worker.stage.Stopped? then c.(pc := Starting(SendReady))
      else c
    case SendReady => c.(sent := ReadySent(c.sent), pc := Starting(Install))
    case Install => c.(control := c.control.(installed := true), pc := Looping(Poll))
  }

  /** The event loop. `expired` is what a deadline comparison finds and `input` what a
      read of the control pipe finds. */
  function AdvanceLoop(c: Controller, expired: bool, input: Input): (d: Controller)
    requires c.pc.Looping?
  {
    match c.pc.loop
    case Poll =>
      if c.worker.Zombie? then c.(worker := Reaped(c.worker.code), pc := Closing(Found, c.worker.code))
      else c.(pc := Looping(Timeout))
    case Timeout => c.(pc := if !c.control.started && expired then InStop(Check, Read) else Looping(Read))
    case Read =>
      if c.control.stopping then c.(pc := Looping(LateTimeout))
      else (match input
        case Nothing => c.(pc := Looping(LateTimeout))
        case Eof => c.(pc := InStop(Check, Poll))
        case Oversized => Fault(c)
        case Received(commands) => c.(pc := Looping(Lines(commands))))
    case Lines(queue) =>
      if queue.NoMore? then c.(pc := Looping(LateTimeout))
      else if queue.command.Start? && !c.control.started && !c.control.stopping then
        c.(history := c.history.(startConsumed := true), pc := Looping(SetStarted(queue.rest)))
      else if queue.command.Stop? then c.(pc := InStop(Check, Lines(queue.rest)))
      else c.(pc := InStop(Check, Throw))
    case SetStarted(queue) => c.(control := c.control.(started := true), pc := Looping(SendContinue(queue)))
    case SendContinue(queue) => c.(worker := Continue(c.worker), pc := Looping(Lines(queue)))
    case LateTimeout => c.(pc := if c.control.started && expired then InStop(Check, Poll) else Looping(Poll))
    case Throw => Fault(c)
  }

  /** `stop()` called by the main thread: TERM first, then CONT unless it was started. */
  function AdvanceStop(c: Controller): (d: Controller)
    requires c.pc.InStop?
  {
    var after := c.pc.after;
    match c.pc.stop
    case Check => c.(pc := if c.control.stopping then Looping(after) else InStop(Set, after))
    case Set => c.(control := c.control.(stopping := true), pc := InStop(Term, after))
    case Term =>
      if !c.owned.pidfdOpen then Fault(c)
      else if c.worker.Reaped? then c.(pc := Looping(after))
      else c.(worker := Terminate(c.worker), history := c.history.(termSent := true), pc := InStop(Cont, after))
    case Cont =>
      if c.control.started || c.worker.Reaped? then c.(pc := Looping(after))
      else c.(worker := Continue(c.worker), pc := Looping(after))
  }

  function AdvanceClosing(c: Controller): (d: Controller)
    requires c.pc.Closing?
  {
    var code := c.pc.code;
    match c.pc.close
    case Found => c.(pc := Closing(Wait, code))
    case Wait => c.(owned := c.owned.(waited := true), pc := Closing(Close, code))
    case Close => c.(owned := c.owned.(pidfdOpen := false), pc := Closing(Send, code))
    case Send => c.(sent := ClosedSent(c.sent, code, c.control.stopping), pc := Returning)
  }

  function AdvanceRecovery(c: Controller): (d: Controller)
    requires c.pc.Recovering?
  {
    match c.pc.recover
    case Inspect =>
      c.(pc := Recovering(if !c.owned.child || c.owned.waited then Leave
                          else if !c.owned.pidfdOpen then SleepForever else RecoverTerm))
    case RecoverTerm =>
      if c.worker.Reaped? then c.(pc := Recovering(RecoverWait))
      else c.(worker := Terminate(c.worker), history := c.history.(termSent := true), pc := Recovering(RecoverContinue))
    case RecoverContinue => c.(worker := Continue(c.worker), pc := Recovering(RecoverWait))
    case RecoverWait =>
      if c.worker.Zombie? then c.(worker := Reaped(c.worker.code), pc := RecoverClosing(Found, c.worker.code))
      else if c.worker.Reaped? then Fault(c)
      else c
    case Leave => c.(pc := Exited)
    case SleepForever => c
  }

  function AdvanceRecoverClosing(c: Controller): (d: Controller)
    requires c.pc.RecoverClosing?
  {
    var code := c.pc.code;
    match c.pc.close
    case Found => c.(pc := RecoverClosing(Wait, code))
    case Wait => c.(owned := c.owned.(waited := true), pc := RecoverClosing(Close, code))
    case Close => c.(owned := c.owned.(pidfdOpen := false), pc := RecoverClosing(Send, code))
    case Send => c.(sent := ClosedSent(c.sent, code, true), pc := Recovering(Leave))
  }

  /** One statement of the main thread, which waits while a handler runs. */
  function Advance(c: Controller, expired: bool, input: Input): (d: Controller) {
    if !c.handler.Idle? then c
    else match c.pc
      case Starting(_) => AdvanceStart(c)
      case Looping(_) => AdvanceLoop(c, expired, input)
      case InStop(_, _) => AdvanceStop(c)
      case Closing(_, _) => AdvanceClosing(c)
      case Returning => c.(pc := Exited)
      case Recovering(_) => AdvanceRecovery(c)
      case RecoverClosing(_, _) => AdvanceRecoverClosing(c)
      case Exited => c
  }

  /** SIGTERM or SIGINT: deadly before the handlers are installed, `stop()` afterwards. */
  function Interrupt(c: Controller): (d: Controller) {
    if c.pc.Exited? then c
    else if !c.control.installed then c.(pc := Exited, handler := Idle)
    else if c.control.stopping || !c.handler.Idle? then c
    else c.(control := c.control.(stopping := true), handler := AtTerm)
  }

  /** The two signals of a `stop()` that runs as a signal handler. */
  function AdvanceHandler(c: Controller): (d: Controller) {
    match c.handler
    case Idle => c
    case AtTerm =>
      if !c.owned.pidfdOpen then Fault(c)
      else if c.worker.Reaped? then c.(handler := Idle)
      else c.(worker := Terminate(c.worker), history := c.history.(termSent := true), handler := AtCont)
    case AtCont =>
      if c.control.started || c.worker.Reaped? then c.(handler := Idle)
      else c.(worker := Continue(c.worker), handler := Idle)
  }

  datatype WorkerStep = Redirect | StopSelf | Exec | Die(code: int)

  /** The forked code redirects its output, stops itself and, once resumed without a
      pending TERM, executes; it may die at any point. */
  function AdvanceWorker(c: Controller, step: WorkerStep): (d: Controller) {
    if !c.worker.Alive? then c
    else match step
      case Redirect => if c.worker.stage.Forked? then c.(worker := c.worker.(stdout := DevNull)) else c
      case StopSelf =>
        if c.worker.stage.Forked? && c.worker.stdout.DevNull? then c.(worker := c.worker.(stage := Stopped)) else c
      case Exec =>
        if c.worker.stage.Resumed? && !c.worker.term then c.(worker := c.worker.(stage := Executing), history := c.history.(ran := true))
        else c
      case Die(code) => c.(worker := Zombie(code))
  }

  datatype Step =
    | Main(expired: bool, input: Input)
    | Raise
    | SignalArrives
    | HandlerRuns
    | Killed
    | WorkerMoves(move: WorkerStep)

  function Apply(c: Controller, s: Step): (d: Controller) {
    match s
    case Main(expired, input) => Advance(c, expired, input)
    case Raise => Fault(c)
    case SignalArrives => Interrupt(c)
    case HandlerRuns => AdvanceHandler(c)
    case Killed => c.(pc := Exited, handler := Idle)
    case WorkerMoves(move) => AdvanceWorker(c, move)
  }

  // ----- what every step keeps -----

  predicate OnlyReady(sent: Log) {
    sent.ReadySent? && sent.earlier.Silent?
  }

  predicate NoneClosed(sent: Log) {
    sent.Silent? || OnlyReady(sent)
  }

  /** Exactly one closed receipt, sent last. */
  predicate OneClosed(sent: Log) {
    sent.ClosedSent? && NoneClosed(sent.earlier)
  }

  predicate TermPending(w: Worker) {
    w.Alive? ==> w.term
  }

  /** The one closed receipt that was sent tells the truth about the child, the pidfd and
      the signals, and follows the wait and the close. */
  predicate Truthful(c: Controller) {
    && OneClosed(c.sent) && c.owned.waited && !c.owned.pidfdOpen
    && c.worker == Reaped(c.sent.rootExitCode) && (!c.sent.pidfdSignalUsed ==> !c.history.termSent)
  }

  predicate BeforeReady(c: Controller) {
    && c.sent.Silent? && !c.history.startConsumed && !c.control.stopping && !c.history.termSent && !c.owned.waited
    && !c.control.installed && !c.worker.Reaped?
  }

  predicate InLoop(c: Controller) {
    OnlyReady(c.sent) && c.control.installed && !c.owned.waited && c.owned.pidfdOpen && !c.worker.Reaped?
  }

  predicate StartProgress(c: Controller, start: StartPc) {
    match start
    case Fork => BeforeReady(c) && c.worker.Unborn?
    case Own | Pin => BeforeReady(c)
    case AwaitStop | SendReady => BeforeReady(c) && c.owned.pidfdOpen
    case Install => OnlyReady(c.sent) && !c.owned.waited && c.owned.pidfdOpen && !c.worker.Reaped? && !c.control.installed && !c.history.termSent
  }

  /** What holds between the wait and the return, on either path. */
  predicate CloseProgress(c: Controller, close: ClosePc, code: int) {
    && c.worker == Reaped(code)
    && (close.Close? || close.Send? ==> c.owned.waited)
    && (close.Send? ==> !c.owned.pidfdOpen)
  }

  /** What has been sent, waited for and closed at each statement of the main thread. */
  predicate Progress(c: Controller) {
    match c.pc
    case Starting(start) => StartProgress(c, start)
    case Looping(loop) => InLoop(c) && (loop.SetStarted? || loop.SendContinue? ==> c.history.startConsumed)
    case InStop(stop, after) =>
      && InLoop(c) && !after.SetStarted? && !after.SendContinue?
      && (stop.Term? || stop.Cont? ==> c.control.stopping) && (stop.Cont? ==> TermPending(c.worker))
    case Closing(close, code) => OnlyReady(c.sent) && CloseProgress(c, close, code)
    case Returning => Truthful(c)
    case Recovering(recover) =>
      && (NoneClosed(c.sent) || (Truthful(c) && (recover.Inspect? || recover.Leave?)))
      && (recover.RecoverContinue? ==> TermPending(c.worker))
    case RecoverClosing(close, code) => NoneClosed(c.sent) && CloseProgress(c, close, code)
    case Exited => NoneClosed(c.sent) || Truthful(c)
  }

  /** The child executes only after the accepted start command, and every other CONT
      finds a TERM pending. */
  predicate Guarded(c: Controller) {
    && (c.control.started ==> c.history.startConsumed)
    && (!c.control.installed ==> !c.history.startConsumed && c.handler.Idle?)
    && (c.worker.Alive? ==>
        && (!c.worker.stage.Forked? ==> c.worker.stdout.DevNull?)
        && (c.worker.stage.Resumed? && !c.worker.term ==> c.history.startConsumed)
        && (c.worker.stage.Executing? ==> c.history.ran))
    && (c.history.ran ==> c.history.startConsumed)
    && (!c.handler.Idle? ==> c.control.stopping)
    && (c.handler.AtCont? ==> TermPending(c.worker))
    && (c.history.termSent ==> c.control.stopping || InRecovery(c.pc) || c.pc.Exited?)
  }

  /** The child waits in its own SIGSTOP. */
  predicate Held(w: Worker) {
    w.Alive? && w.stage.Stopped?
  }

  /** The child exists and is past the code that runs before its SIGSTOP. */
  predicate Settled(w: Worker) {
    !w.Unborn? && !(w.Alive? && w.stage.Forked?)
  }

  /** The started child waits for no CONT but the one at `SendContinue`, and a stopping one
      for none but that and those of a `stop()` in progress. */
  predicate Relieved(pc: Pc, started: bool) {
    match pc
    case Looping(loop) => !loop.SendContinue?
    case InStop(stop, _) => started || stop.Check?
    case _ => false
  }

  /** No child is left behind in its SIGSTOP: once the controller started it, or once it
      stops, and no CONT is still to come, the child was continued. A bad command stops the
      child before it raises. */
  predicate Continued(c: Controller) {
    && (!c.control.installed ==> !c.control.stopping && !c.control.started)
    && (!c.sent.Silent? || c.pc == Starting(SendReady) ==> Settled(c.worker))
    && (c.control.started && Relieved(c.pc, true) ==> !Held(c.worker))
    && (c.control.stopping && c.handler.Idle? && Relieved(c.pc, false) ==> !Held(c.worker))
    && (c.control.stopping && c.handler.Idle? && (c.pc.Looping? || (c.pc.InStop? && c.pc.stop.Check?)) ==> TermPending(c.worker))
    && (c.pc == Looping(Throw) ==> c.control.stopping)
    && (c.pc.Looping? && c.pc.loop.SetStarted? ==> !c.control.started)
    && (c.pc == Recovering(RecoverWait) && !c.sent.Silent? ==> !Held(c.worker))
  }

  predicate Inv(c: Controller) {
    Progress(c) && Guarded(c) && Continued(c)
  }

  lemma FaultKeeps(c: Controller)
    requires Inv(c)
    ensures Inv(Fault(c))
  {
  }

  lemma StartKeeps(c: Controller)
    requires Inv(c) && c.pc.Starting? && c.handler.Idle?
    ensures Inv(AdvanceStart(c))
  {
  }

  lemma LoopProgresses(c: Controller, expired: bool, input: Input)
    requires Inv(c) && c.pc.Looping? && c.handler.Idle?
    ensures Progress(AdvanceLoop(c, expired, input))
  {
  }

  lemma LoopGuards(c: Controller, expired: bool, input: Input)
    requires Inv(c) && c.pc.Looping? && c.handler.Idle?
    ensures Guarded(AdvanceLoop(c, expired, input))
  {
  }

  lemma LoopContinues(c: Controller, expired: bool, input: Input)
    requires Inv(c) && c.pc.Looping? && c.handler.Idle?
    ensures Continued(AdvanceLoop(c, expired, input))
  {
  }

  lemma LoopKeeps(c: Controller, expired: bool, input: Input)
    requires Inv(c) && c.pc.Looping? && c.handler.Idle?
    ensures Inv(AdvanceLoop(c, expired, input))
  {
    LoopProgresses(c, expired, input);
    LoopGuards(c, expired, input);
    LoopContinues(c, expired, input);
  }

  lemma StopKeeps(c: Controller)
    requires Inv(c) && c.pc.InStop? && c.handler.Idle?
    ensures Inv(AdvanceStop(c))
  {
  }

  lemma ClosingKeeps(c: Controller)
    requires Inv(c) && c.pc.Closing? && c.handler.Idle?
    ensures Inv(AdvanceClosing(c))
  {
  }

  lemma RecoveryKeeps(c: Controller)
    requires Inv(c) && c.pc.Recovering? && c.handler.Idle?
    ensures Inv(AdvanceRecovery(c))
  {
  }

  lemma RecoverClosingKeeps(c: Controller)
    requires Inv(c) && c.pc.RecoverClosing? && c.handler.Idle?
    ensures Inv(AdvanceRecoverClosing(c))
  {
  }

  lemma AdvanceKeeps(c: Controller, expired: bool, input: Input)
    requires Inv(c)
    ensures Inv(Advance(c, expired, input))
  {
    if c.handler.Idle? {
      match c.pc {
        case Starting(_) => StartKeeps(c);
        case Looping(_) => LoopKeeps(c, expired, input);
        case InStop(_, _) => StopKeeps(c);
        case Closing(_, _) => ClosingKeeps(c);
        case Recovering(_) => RecoveryKeeps(c);
        case RecoverClosing(_, _) => RecoverClosingKeeps(c);
        case _ =>
      }
    }
  }

  lemma InterruptKeeps(c: Controller)
    requires Inv(c)
    ensures Inv(Interrupt(c))
  {
  }

  lemma HandlerKeeps(c: Controller)
    requires Inv(c)
    ensures Inv(AdvanceHandler(c))
  {
    if c.handler.AtTerm? && !c.owned.pidfdOpen {
      FaultKeeps(c);
    }
  }

  lemma WorkerKeeps(c: Controller, move: WorkerStep)
    requires Inv(c)
    ensures Inv(AdvanceWorker(c, move))
  {
  }

  lemma ApplyKeeps(c: Controller, s: Step)
    requires Inv(c)
    ensures Inv(Apply(c, s))
  {
    match s {
      case Main(expired, input) => AdvanceKeeps(c, expired, input);
      case Raise => FaultKeeps(c);
      case SignalArrives => InterruptKeeps(c);
      case HandlerRuns => HandlerKeeps(c);
      case Killed =>
      case WorkerMoves(move) => WorkerKeeps(c, move);
    }
  }

  // ----- what the controller gets done -----

  /** `n` statements of the main thread, all with the same deadlines and input. */
  function Advances(c: Controller, expired: bool, input: Input, n: nat): (d: Controller)
    decreases n
  {
    if n == 0 then c else Advances(Advance(c, expired, input), expired, input, n - 1)
  }

  /** What asks the loop to stop: the first deadline, the end of input, a stop line or a bad
      one, the deadline of a started child. */
  predicate AsksToStop(c: Controller, expired: bool, input: Input) {
    c.pc.Looping?
    && match c.pc.loop
       case Timeout => expired && !c.control.started
       case Read => input.Eof?
       case Lines(queue) => queue.Next? && (!queue.command.Start? || c.control.started)
       case LateTimeout => expired && c.control.started
       case _ => false
  }

  /** The child got its TERM and is not held; the receipts and the pidfd are untouched. */
  predicate Terminated(c: Controller, d: Controller) {
    && d.control == c.control.(stopping := true) && d.history.termSent
    && TermPending(d.worker) && !Held(d.worker)
    && d.sent == c.sent && d.owned == c.owned
  }

  lemma OneMore(c: Controller, expired: bool, input: Input, n: nat)
    requires n > 0
    ensures Advances(c, expired, input, n) == Advances(Advance(c, expired, input), expired, input, n - 1)
  {
  }

  lemma FourMore(c: Controller, expired: bool, input: Input)
    ensures Advances(c, expired, input, 4)
         == Advance(Advance(Advance(Advance(c, expired, input), expired, input), expired, input), expired, input)
  {
    var d := Advance(c, expired, input);
    var e := Advance(d, expired, input);
    var f := Advance(e, expired, input);
    OneMore(c, expired, input, 4);
    OneMore(d, expired, input, 3);
    OneMore(e, expired, input, 2);
    OneMore(f, expired, input, 1);
  }

  /** `stop()` of the main thread. */
  lemma StopRuns(c: Controller, expired: bool, input: Input)
    requires Inv(c) && c.handler.Idle? && !c.control.stopping && c.pc.InStop? && c.pc.stop.Check?
    ensures Terminated(c, Advances(c, expired, input, 4)) && Advances(c, expired, input, 4).pc == Looping(c.pc.after)
  {
    FourMore(c, expired, input);
  }

  lemma StopIsEntered(c: Controller, expired: bool, input: Input)
    requires c.handler.Idle? && !c.control.stopping && AsksToStop(c, expired, input)
    ensures var d := Advance(c, expired, input);
            d.pc.InStop? && d.pc.stop.Check? && d == c.(pc := d.pc)
  {
  }

  /** Every request to stop is carried out: a child that runs gets a TERM, and a CONT after it
      unless it was started. */
  lemma StopIsCarriedOut(c: Controller, expired: bool, input: Input)
    requires Inv(c) && c.handler.Idle? && !c.control.stopping && AsksToStop(c, expired, input)
    ensures Terminated(c, Advances(c, expired, input, 5)) && Advances(c, expired, input, 5).pc.Looping?
  {
    StopIsEntered(c, expired, input);
    AdvanceKeeps(c, expired, input);
    OneMore(c, expired, input, 5);
    StopRuns(Advance(c, expired, input), expired, input);
  }

  /** A line that is neither the stop line nor a start line that may be obeyed. */
  predicate BadLine(c: Controller) {
    && c.pc.Looping? && c.pc.loop.Lines? && c.pc.loop.queue.Next?
    && !c.pc.loop.queue.command.Stop?
    && (c.pc.loop.queue.command.Start? ==> c.control.started || c.control.stopping)
  }

  /** A bad line ends in the recovery, after the stop; too much input does so at once. */
  lemma BadInputRaises(c: Controller, expired: bool, input: Input)
    requires Inv(c) && c.handler.Idle?
    ensures c.pc == Looping(Read) && !c.control.stopping && input.Oversized? ==>
              Advance(c, expired, input) == c.(pc := Recovering(Inspect))
    ensures BadLine(c) ==>
              Advances(c, expired, input, if c.control.stopping then 3 else 6).pc == Recovering(Inspect)
    ensures BadLine(c) && !c.control.stopping ==> Terminated(c, Advances(c, expired, input, 6))
  {
    if BadLine(c) {
      if c.control.stopping {
        ThreeMore(c, expired, input);
      } else {
        var d := Advance(c, expired, input);
        AdvanceKeeps(c, expired, input);
        assert d == c.(pc := InStop(Check, Throw));
        StopRuns(d, expired, input);
        AdvancesLast(d, expired, input, 4);
        OneMore(c, expired, input, 6);
      }
    }
  }

  lemma {:induction false} AdvancesLast(c: Controller, expired: bool, input: Input, n: nat)
    ensures Advances(c, expired, input, n + 1) == Advance(Advances(c, expired, input, n), expired, input)
    decreases n
  {
    OneMore(c, expired, input, n + 1);
    if n > 0 {
      OneMore(c, expired, input, n);
      AdvancesLast(Advance(c, expired, input), expired, input, n - 1);
    }
  }

  /** A signal in the loop does the same through the handler. */
  lemma SignalIsCarriedOut(c: Controller)
    requires Inv(c) && c.handler.Idle? && !c.control.stopping && c.pc.Looping?
    requires !c.pc.loop.SendContinue?
    ensures var d := AdvanceHandler(AdvanceHandler(Interrupt(c)));
            Terminated(c, d) && d.pc == c.pc && d.handler.Idle?
  {
  }

  /** The exact start command starts and continues the child that waits for it. */
  lemma StartIsCarriedOut(c: Controller, expired: bool, input: Input, rest: Queue)
    requires Inv(c) && c.handler.Idle? && !c.control.stopping && !c.control.started
    requires c.pc == Looping(Lines(Next(Start, rest)))
    ensures var d := Advances(c, expired, input, 3);
            && d.control == c.control.(started := true) && d.pc == Looping(Lines(rest))
            && !Held(d.worker) && (c.worker.Alive? ==> d.worker == Continue(c.worker)) && d.sent == c.sent
  {
    ThreeMore(c, expired, input);
  }

  /** A child executes exactly if it was continued and no TERM is pending; before its own stop
      it redirects its output; and it may end at any time. */
  lemma WorkerActs(c: Controller, code: int)
    requires c.worker.Alive?
    ensures AdvanceWorker(c, Exec).worker.stage.Executing?
       <==> c.worker.stage.Executing? || (c.worker.stage.Resumed? && !c.worker.term)
    ensures AdvanceWorker(c, Exec).history.ran
       <==> c.history.ran || (c.worker.stage.Resumed? && !c.worker.term)
    ensures c.worker.stage.Forked? ==>
              AdvanceWorker(AdvanceWorker(c, Redirect), StopSelf).worker == Alive(Stopped, c.worker.term, DevNull)
    ensures AdvanceWorker(c, Die(code)).worker == Zombie(code)
  {
  }

  /** A child that ended is waited for and reported, with its exit code, in the loop... */
  lemma EndIsReported(c: Controller, expired: bool, input: Input)
    requires Inv(c) && c.handler.Idle? && c.pc == Looping(Poll) && c.worker.Zombie?
    ensures var d := Advances(c, expired, input, 6);
            && d.sent == ClosedSent(c.sent, c.worker.code, c.control.stopping)
            && d.worker == Reaped(c.worker.code) && d.owned == c.owned.(waited := true, pidfdOpen := false)
            && d.pc.Exited?
  {
    SixMore(c, expired, input);
  }

  lemma SixMore(c: Controller, expired: bool, input: Input)
    ensures Advances(c, expired, input, 6)
         == Advance(Advance(Advance(Advance(Advance(Advance(c, expired, input), expired, input), expired, input), expired, input), expired, input), expired, input)
  {
    var d := Advance(c, expired, input);
    OneMore(c, expired, input, 6);
    OneMore(d, expired, input, 5);
    FourMore(Advance(d, expired, input), expired, input);
  }

  /** ... and in the recovery, as one that a signal ended. */
  lemma RecoveryReports(c: Controller, expired: bool, input: Input)
    requires Inv(c) && c.pc == Recovering(RecoverWait) && c.handler.Idle? && c.worker.Zombie?
    ensures var d := Advances(c, expired, input, 6);
            && d.sent == ClosedSent(c.sent, c.worker.code, true)
            && d.worker == Reaped(c.worker.code) && d.owned == c.owned.(waited := true, pidfdOpen := false)
            && d.pc.Exited?
  {
    SixMore(c, expired, input);
  }

  /** An exception while the child is owned, pinned and not waited for ends it: TERM, then
      CONT, then the wait; without a pidfd nothing is signalled and the controller stays. */
  lemma RecoverySignals(c: Controller, expired: bool, input: Input)
    requires Inv(c) && !InRecovery(c.pc) && !c.pc.Exited? && c.owned.child && !c.owned.waited && !c.worker.Reaped?
    ensures var d := Advances(Fault(c), expired, input, 3);
            && (c.owned.pidfdOpen ==>
                d.pc == Recovering(RecoverWait) && TermPending(d.worker) && !Held(d.worker) && d.history.termSent)
            && (!c.owned.pidfdOpen ==> d.pc == Recovering(SleepForever) && d.worker == c.worker)
            && d.sent == c.sent
  {
    ThreeMore(Fault(c), expired, input);
  }

  /** An undisturbed launch: the child is forked, pinned, stopped and announced. */
  lemma LaunchReachesTheLoop(expired: bool, input: Input)
    ensures Advances(AdvanceWorker(AdvanceWorker(Advances(INITIAL, expired, input, 3), Redirect), StopSelf), expired, input, 3)
         == Controller(Looping(Poll), Idle, Control(true, false, false), Owned(true, false, true),
                       Alive(Stopped, false, DevNull), ReadySent(Silent), History(false, false, false))
  {
    ThreeMore(INITIAL, expired, input);
    var pinned := Advances(INITIAL, expired, input, 3);
    ThreeMore(AdvanceWorker(AdvanceWorker(pinned, Redirect), StopSelf), expired, input);
  }

  lemma ThreeMore(c: Controller, expired: bool, input: Input)
    ensures Advances(c, expired, input, 3) == Advance(Advance(Advance(c, expired, input), expired, input), expired, input)
  {
    var d := Advance(c, expired, input);
    OneMore(c, expired, input, 3);
    OneMore(d, expired, input, 2);
    OneMore(Advance(d, expired, input), expired, input, 1);
  }
}
