/** The PostgreSQL dependency of the ARM64 runner: setup records its phase in a receipt that
    it rewrites in place, cleanup reads that receipt and decides whether the root may go.
    Setup may crash or fail at any step, also in the middle of a rewrite, and the processes
    it started live on, start others and exit whenever they like. */
module PostgresReceipt {
  import opened Wrappers

  datatype Phase = Preparing | Prepared | Starting | Running

  /** The receipt file; a torn one does not parse. */
  datatype Receipt = Missing | Torn | Written(phase: Phase, process: Option<nat>)

  /** `pidFile` is the process that `postmaster.pid` names. */
  datatype Disk = Disk(root: bool, receipt: Receipt, pidFile: Option<nat>)

  /** A process that runs, and whether its executable lies under the root. */
  datatype Process = Process(parent: nat, fromRoot: bool)

  /** The processes that run, and every identity (pid and creation time) used so far. The
      identity 0 stands for the processes outside this model. */
  datatype World = World(alive: map<nat, Process>, used: set<nat>)

  /** Setup is rewriting the receipt, between two tools of a phase, running a tool, or over:
      finished, failed or crashed. `done` counts what the phase did so far. */
  datatype Setup =
    | Fresh
    | Writing(phase: Phase, seen: Option<nat>)
    | At(phase: Phase, done: nat, seen: Option<nat>)
    | Tool(phase: Phase, done: nat, seen: Option<nat>, id: nat)
    | Over

  /** How far a cleanup is; `captured` are the processes it saw under the root. */
  datatype Cleanup =
    | NoCleanup
    | Accepted
    | Captured(captured: set<nat>)
    | Confirmed(captured: set<nat>, recorded: nat)
    | Stopping(captured: set<nat>, recorded: nat, tool: nat)
    | Quiet(captured: set<nat>)
    | Empty(captured: set<nat>)
    | Ready(captured: set<nat>)

  /** The processes that `pg_ctl stop` reached, the last one first. */
  datatype Stops = Never | More(id: nat, rest: Stops)

  /** `replaced` says that since a cleanup confirmed the postmaster the pid file was claimed,
      and last by another process. */
  datatype State = State(
    setup: Setup, cleanup: Cleanup, disk: Disk, world: World, replaced: bool, stops: Stops)

  const INITIAL: State :=
    State(Fresh, NoCleanup, Disk(true, Missing, None), World(map[], {0}), false, Never)

  datatype Step =
    | BeginWrite
    | EndWrite
    | StartTool(id: nat)
    | ToolEnds
    | Observe
    | SetupEnds
    | Born(id: nat, parent: nat, fromRoot: bool)
    | Exits(id: nat)
    | Claims(id: nat)
    | Unclaims
    | CleanupBegins
    | FindNone
    | Capture
    | Look
    | StopBegins(id: nat)
    | StopSignals
    | StopEnds
    | CheckGone
    | CheckDrain
    | Delete
    | Leave

  // ----- processes -----

  ghost predicate NoneFromRoot(w: World) {
    forall id | id in w.alive :: !w.alive[id].fromRoot
  }

  function FromRoot(w: World): (ids: set<nat>) {
    set id | id in w.alive && w.alive[id].fromRoot
  }

  /** `assertDrainAbsent`: no captured process runs and none that runs has a captured parent. */
  predicate DrainAbsent(w: World, captured: set<nat>) {
    forall id | id in w.alive :: id !in captured && w.alive[id].parent !in captured
  }

  function Birth(w: World, id: nat, p: Process): (t: World) {
    World(w.alive[id := p], w.used + {id})
  }

  function Exit(w: World, id: nat): (t: World) {
    w.(alive := w.alive - {id})
  }

  // ----- setup -----

  /** What a phase does before the next one is written: `initdb`; `pg_ctl start`, the look at
      the postmaster and `psql`; `createdb` and `psql`. */
  function Needed(phase: Phase): (n: nat) {
    match phase
    case Preparing => 0
    case Prepared => 1
    case Starting => 3
    case Running => 2
  }

  function Next(phase: Phase): (next: Phase) {
    match phase
    case Preparing => Prepared
    case Prepared => Starting
    case _ => Running
  }

  predicate MayRunTool(setup: Setup) {
    setup.At? && setup.done < Needed(setup.phase) && !(setup.phase.Starting? && setup.done == 1)
  }

  function SetupStep(s: State, step: Step): (t: State) {
    match step
    case BeginWrite =>
      if s.setup.Fresh? then
        s.(setup := Writing(Preparing, None), disk := s.disk.(receipt := Torn))
      else if s.setup.At? && s.setup.done == Needed(s.setup.phase) && !s.setup.phase.Running? then
        s.(setup := Writing(Next(s.setup.phase), s.setup.seen), disk := s.disk.(receipt := Torn))
      else s
    case EndWrite =>
      if s.setup.Writing? then
        s.(setup := At(s.setup.phase, 0, s.setup.seen), disk := s.disk.(receipt := Written(s.setup.phase, s.setup.seen)))
      else s
    case StartTool(id) =>
      if MayRunTool(s.setup) && id !in s.world.used then
        s.(setup := Tool(s.setup.phase, s.setup.done, s.setup.seen, id), world := Birth(s.world, id, Process(0, true)))
      else s
    case ToolEnds =>
      if s.setup.Tool? && s.setup.id !in s.world.alive then
        s.(setup := At(s.setup.phase, s.setup.done + 1, s.setup.seen))
      else s
    case Observe =>
      // `currentProcess`, whose executable must be the `postgres.exe` of the root.
      if s.setup.At? && s.setup.phase.Starting? && s.setup.done == 1 && s.disk.pidFile.Some?
         && s.disk.pidFile.value in FromRoot(s.world) then
        s.(setup := At(Starting, 2, s.disk.pidFile))
      else s
    case _ => s.(setup := Over)
  }

  // ----- the environment -----

  /** Executables of the root are started by processes of the root, and by setup and cleanup. */
  predicate MayBeBorn(w: World, id: nat, p: Process) {
    && id !in w.used
    && (p.fromRoot ==> p.parent in w.alive && w.alive[p.parent].fromRoot)
    && (p.parent == 0 || p.parent in w.alive)
  }

  /** Another process than the one that a cleanup confirmed. */
  predicate Foreign(cleanup: Cleanup, id: nat) {
    (cleanup.Confirmed? || cleanup.Stopping?) && id != cleanup.recorded
  }

  function OutsideStep(s: State, step: Step): (t: State) {
    match step
    case Born(id, parent, fromRoot) =>
      if MayBeBorn(s.world, id, Process(parent, fromRoot)) then s.(world := Birth(s.world, id, Process(parent, fromRoot))) else s
    case Exits(id) => s.(world := Exit(s.world, id))
    case Claims(id) =>
      // Any process, also a foreign one, once no running process holds the file.
      if s.disk.root && id in s.world.alive && (s.disk.pidFile.None? || s.disk.pidFile.value !in s.world.alive)
      then s.(disk := s.disk.(pidFile := Some(id)), replaced := Foreign(s.cleanup, id)) else s
    case _ => s.(disk := s.disk.(pidFile := None))
  }

  // ----- cleanup -----

  function PhaseOf(disk: Disk): (phase: Option<Phase>) {
    if disk.receipt.Written? then Some(disk.receipt.phase) else None
  }

  /** A check that fails throws: the cleanup is over and everything stays. */
  function Refuse(s: State): (t: State) {
    s.(cleanup := NoCleanup)
  }

  function LookStep(s: State, captured: set<nat>): (t: State) {
    match s.disk.pidFile
    case None => s.(cleanup := Quiet(captured))
    case Some(id) =>
      if s.disk.receipt.Written? && s.disk.receipt.process == Some(id) && id in s.world.alive
      then s.(cleanup := Confirmed(captured, id), replaced := false)
      else Refuse(s)
  }

  function CleanupStep(s: State, step: Step): (t: State) {
    match step
    case CleanupBegins =>
      // The receipt parses and its recorded identities match.
      if s.setup.Over? && s.cleanup.NoCleanup? && s.disk.root && s.disk.receipt.Written?
      then s.(cleanup := Accepted) else s
    case FindNone =>
      if s.cleanup.Accepted? && PhaseOf(s.disk) == Some(Preparing)
      then if FromRoot(s.world) == {} then s.(cleanup := Ready({})) else Refuse(s)
      else s
    case Capture =>
      if s.cleanup.Accepted? && PhaseOf(s.disk) != Some(Preparing)
      then if PhaseOf(s.disk) == Some(Starting) then Refuse(s) else s.(cleanup := Captured(FromRoot(s.world)))
      else s
    case Look => if s.cleanup.Captured? then LookStep(s, s.cleanup.captured) else s
    case StopBegins(id) =>
      if s.cleanup.Confirmed? && id !in s.world.used
      then s.(cleanup := Stopping(s.cleanup.captured, s.cleanup.recorded, id), world := Birth(s.world, id, Process(0, true)))
      else s
    case StopSignals =>
      if s.cleanup.Stopping? && s.disk.pidFile.Some? && s.disk.pidFile.value in s.world.alive
      then s.(stops := More(s.disk.pidFile.value, s.stops)) else s
    case StopEnds =>
      if s.cleanup.Stopping? && s.cleanup.tool !in s.world.alive then s.(cleanup := Quiet(s.cleanup.captured)) else s
    case CheckGone =>
      if s.cleanup.Quiet?
      then if s.disk.pidFile.None? && FromRoot(s.world) == {} then s.(cleanup := Empty(s.cleanup.captured)) else Refuse(s)
      else s
    case CheckDrain =>
      if s.cleanup.Empty?
      then if DrainAbsent(s.world, s.cleanup.captured) then s.(cleanup := Ready(s.cleanup.captured)) else Refuse(s)
      else s
    case Delete =>
      if s.cleanup.Ready? then s.(cleanup := NoCleanup, disk := Disk(false, Missing, None)) else s
    case _ => Refuse(s)
  }

  predicate IsSetup(step: Step) {
    step.BeginWrite? || step.EndWrite? || step.StartTool? || step.ToolEnds? || step.Observe? || step.SetupEnds?
  }

  predicate IsOutside(step: Step) {
    step.Born? || step.Exits? || step.Claims? || step.Unclaims?
  }

  /** A step that is not enabled changes nothing. */
  function Apply(s: State, step: Step): (t: State) {
    if IsSetup(step) then SetupStep(s, step)
    else if IsOutside(step) then OutsideStep(s, step)
    else CleanupStep(s, step)
  }

  function Run(s: State, steps: seq<Step>): (t: State)
    decreases |steps|
  {
    if steps == [] then s else Run(Apply(s, steps[0]), steps[1..])
  }

  // ----- what every step keeps -----

  ghost predicate WorldInv(w: World) {
    0 in w.used && 0 !in w.alive && w.alive.Keys <= w.used
  }

  /** What the setup knows agrees with the receipt, and nothing ran from the root before the
      phase `Prepared` was written. */
  ghost predicate SetupInv(s: State) {
    match s.setup
    case Fresh => s.disk.receipt.Missing? && NoneFromRoot(s.world)
    case Writing(phase, seen) =>
      s.disk.receipt.Torn? && (seen.Some? <==> phase.Running?)
      && (phase.Preparing? || phase.Prepared? ==> NoneFromRoot(s.world))
    case At(phase, done, seen) =>
      s.disk.receipt == Written(phase, if phase.Running? then seen else None)
      && (seen.Some? <==> phase.Running? || (phase.Starting? && done >= 2))
      && (phase.Preparing? ==> NoneFromRoot(s.world))
    case Tool(phase, done, seen, id) =>
      s.disk.receipt == Written(phase, if phase.Running? then seen else None)
      && (seen.Some? <==> phase.Running? || (phase.Starting? && done >= 2))
      && !phase.Preparing? && !(phase.Starting? && done == 1)
    case Over => true
  }

  ghost predicate DiskInv(s: State) {
    && (s.setup.Over? || (s.cleanup.NoCleanup? && s.disk.root))
    && (s.disk.receipt.Written? ==> (s.disk.receipt.process.Some? <==> s.disk.receipt.phase.Running?))
    && (PhaseOf(s.disk) == Some(Preparing) ==> NoneFromRoot(s.world))
    && (s.disk.root || NoneFromRoot(s.world))
  }

  /** What a cleanup in progress has established. */
  ghost predicate CleanupInv(s: State) {
    match s.cleanup
    case NoCleanup => true
    case Accepted => s.disk.root && s.disk.receipt.Written?
    case Captured(captured) => Past(s, captured)
    case Confirmed(captured, recorded) => Past(s, captured) && Recorded(s, recorded)
    case Stopping(captured, recorded, tool) => Past(s, captured) && Recorded(s, recorded)
    case Quiet(captured) => Past(s, captured)
    case Empty(captured) => Past(s, captured) && NoneFromRoot(s.world)
    case Ready(captured) =>
      s.disk.root && s.disk.receipt.Written? && !s.disk.receipt.phase.Starting?
      && captured <= s.world.used && 0 !in captured
      && NoneFromRoot(s.world) && DrainAbsent(s.world, captured)
  }

  ghost predicate Past(s: State, captured: set<nat>) {
    && s.disk.root && s.disk.receipt.Written?
    && (s.disk.receipt.phase.Prepared? || s.disk.receipt.phase.Running?)
    && captured <= s.world.used && 0 !in captured
  }

  /** The recorded process is the one of the receipt, and the pid file names another one
      exactly if it was replaced since the cleanup looked. */
  ghost predicate Recorded(s: State, recorded: nat) {
    && s.disk.receipt.Written? && s.disk.receipt.process == Some(recorded)
    && (s.disk.pidFile.Some? ==> (s.replaced <==> s.disk.pidFile.value != recorded))
  }

  ghost predicate Inv(s: State) {
    WorldInv(s.world) && SetupInv(s) && DiskInv(s) && CleanupInv(s)
  }

  lemma SetupKeeps(s: State, step: Step)
    requires Inv(s) && IsSetup(step)
    ensures Inv(Apply(s, step))
  {
    if step.StartTool? {
      assert s.setup.At? ==> s.cleanup.NoCleanup?;
    }
  }

  lemma OutsideKeeps(s: State, step: Step)
    requires Inv(s) && IsOutside(step)
    ensures Inv(Apply(s, step))
  {
    var t := Apply(s, step);
    if NoneFromRoot(s.world) {
      assert NoneFromRoot(t.world);
    }
  }

  lemma EmptyFromRoot(w: World)
    ensures FromRoot(w) == {} <==> NoneFromRoot(w)
  {
    if FromRoot(w) == {} {
      forall id | id in w.alive
        ensures !w.alive[id].fromRoot
      {
        assert id !in FromRoot(w);
      }
    }
  }

  lemma CleanupKeeps(s: State, step: Step)
    requires Inv(s) && !IsSetup(step) && !IsOutside(step)
    ensures Inv(Apply(s, step))
  {
    EmptyFromRoot(s.world);
  }

  lemma {:induction false} RunKeeps(s: State, steps: seq<Step>)
    requires Inv(s)
    ensures Inv(Run(s, steps))
    decreases |steps|
  {
    if steps != [] {
      if IsSetup(steps[0]) {
        SetupKeeps(s, steps[0]);
      } else if IsOutside(steps[0]) {
        OutsideKeeps(s, steps[0]);
      } else {
        CleanupKeeps(s, steps[0]);
      }
      RunKeeps(Apply(s, steps[0]), steps[1..]);
    }
  }

  // ----- what cleanup may do -----

  /** In every run, with setup ending at any step: a step that removes the root is the end of
      a cleanup that read a whole receipt of another phase than `Starting`, and then no
      process of the root runs, nor any that the cleanup captured or a child of one. */
  lemma RootRemovedOnlyWhenQuiet(steps: seq<Step>, step: Step)
    ensures var s := Run(INITIAL, steps);
            s.disk.root && !Apply(s, step).disk.root ==>
              && step.Delete? && s.setup.Over?
              && s.disk.receipt.Written? && !s.disk.receipt.phase.Starting?
              && NoneFromRoot(s.world)
              && s.cleanup.Ready? && DrainAbsent(s.world, s.cleanup.captured)
  {
    RunKeeps(INITIAL, steps);
  }

  /** A removed root stays without processes, and while the receipt on disk says `Preparing`
      no executable of the root runs. */
  lemma NothingRunsFromRemovedRoot(steps: seq<Step>)
    ensures var s := Run(INITIAL, steps);
            && (!s.disk.root ==> NoneFromRoot(s.world))
            && (PhaseOf(s.disk) == Some(Preparing) ==> NoneFromRoot(s.world))
  {
    RunKeeps(INITIAL, steps);
  }

  /** Setup ended while the receipt was torn, absent or in phase `Starting`. */
  predicate Undecidable(s: State) {
    s.setup.Over? && s.disk.root && (!s.disk.receipt.Written? || s.disk.receipt.phase.Starting?)
  }

  lemma UndecidableStays(s: State, step: Step)
    requires Inv(s) && Undecidable(s)
    ensures Undecidable(Apply(s, step)) && Apply(s, step).disk.receipt == s.disk.receipt
  {
  }

  /** Whatever happens afterwards, and however often cleanup runs, such a root is preserved. */
  lemma {:induction false} UndecidableIsPreserved(s: State, steps: seq<Step>)
    requires Inv(s) && Undecidable(s)
    ensures Undecidable(Run(s, steps)) && Run(s, steps).disk.receipt == s.disk.receipt
    decreases |steps|
  {
    if steps != [] {
      UndecidableStays(s, steps[0]);
      RunKeeps(s, [steps[0]]);
      assert Run(Apply(s, steps[0]), []) == Run(s, [steps[0]]);
      UndecidableIsPreserved(Apply(s, steps[0]), steps[1..]);
    }
  }

  function WholeCleanup(s: State): (t: State) {
    Apply(Apply(Apply(Apply(Apply(Apply(Apply(s,
      CleanupBegins), FindNone), Capture), Look), CheckGone), CheckDrain), Delete)
  }

  lemma UndisturbedPreparing(s: State)
    requires s.setup.Over? && s.cleanup.NoCleanup? && s.disk.root && PhaseOf(s.disk) == Some(Preparing)
    ensures !WholeCleanup(s).disk.root <==> FromRoot(s.world) == {}
  {
  }

  lemma UndisturbedOther(s: State)
    requires s.setup.Over? && s.cleanup.NoCleanup? && s.disk.root && s.disk.pidFile.None?
    requires PhaseOf(s.disk) != Some(Preparing)
    ensures !WholeCleanup(s).disk.root
       <==> s.disk.receipt.Written? && !s.disk.receipt.phase.Starting? && FromRoot(s.world) == {}
  {
  }

  /** When nothing else happens and no pid file is left, a cleanup removes the root exactly
      when the receipt is whole, its phase is not `Starting` and nothing runs from the root. */
  lemma UndisturbedCleanup(s: State)
    requires s.setup.Over? && s.cleanup.NoCleanup? && s.disk.root && s.disk.pidFile.None?
    ensures !WholeCleanup(s).disk.root
       <==> s.disk.receipt.Written? && !s.disk.receipt.phase.Starting? && FromRoot(s.world) == {}
  {
    if PhaseOf(s.disk) == Some(Preparing) {
      UndisturbedPreparing(s);
    } else {
      UndisturbedOther(s);
    }
  }

  // ----- which postmaster is recorded -----

  function SeenOf(setup: Setup): (seen: Option<nat>) {
    match setup
    case Writing(_, seen) => seen
    case At(_, _, seen) => seen
    case Tool(_, _, seen, _) => seen
    case _ => None
  }

  /** Setup takes for its postmaster only the running process of the root that the pid file
      names at that step, and keeps it; the receipt records that one and no other. */
  lemma RecordsOnlyTheObserved(steps: seq<Step>, step: Step)
    ensures var s := Run(INITIAL, steps);
            var t := Apply(s, step);
            && (SeenOf(t.setup).Some? && SeenOf(t.setup) != SeenOf(s.setup) ==>
                SeenOf(t.setup) == s.disk.pidFile && SeenOf(t.setup).value in FromRoot(s.world) && SeenOf(s.setup).None?)
            && (t.disk.receipt.Written? && t.disk.receipt != s.disk.receipt ==>
                t.disk.receipt.process == if t.disk.receipt.phase.Running? then SeenOf(s.setup) else None)
  {
    RunKeeps(INITIAL, steps);
  }

  // ----- which postmaster is stopped -----

  /** A cleanup stops a postmaster only for a receipt in phase `Running`, and it stops another
      process than the one recorded there exactly if the pid file was replaced after the
      cleanup looked: in every run, at every step. */
  lemma StopsAnotherExactlyWhen(steps: seq<Step>, step: Step)
    ensures var s := Run(INITIAL, steps);
            var t := Apply(s, step);
            t.stops != s.stops ==>
              && t.stops.More? && t.stops.rest == s.stops
              && s.disk.receipt.Written? && s.disk.receipt.phase.Running?
              && (s.disk.receipt.process != Some(t.stops.id) <==> s.replaced)
  {
    RunKeeps(INITIAL, steps);
  }

  lemma {:induction false} RunAppend(s: State, a: seq<Step>, b: seq<Step>)
    ensures Run(s, a + b) == Run(Run(s, a), b)
    decreases |a|
  {
    if a == [] {
      assert a + b == b;
    } else {
      assert (a + b)[1..] == a[1..] + b;
      RunAppend(Apply(s, a[0]), a[1..], b);
    }
  }

  lemma RunFirst(s: State, steps: seq<Step>)
    requires steps != []
    ensures Run(s, steps) == Run(Apply(s, steps[0]), steps[1..])
  {
  }

  lemma RunFive(s: State, a: Step, b: Step, c: Step, d: Step, e: Step)
    ensures Run(s, [a, b, c, d, e]) == Apply(Apply(Apply(Apply(Apply(s, a), b), c), d), e)
  {
    var t1 := Apply(s, a);
    var t2 := Apply(t1, b);
    var t3 := Apply(t2, c);
    RunFirst(s, [a, b, c, d, e]);
    RunFirst(t1, [b, c, d, e]);
    RunFirst(t2, [c, d, e]);
    RunFirst(t3, [d, e]);
    RunFirst(Apply(t3, d), [e]);
  }

  // A setup that runs to its end: 1 is `initdb`, 2 `pg_ctl start`, 3 the postmaster, 4 `psql`.
  const PREPARE: seq<Step> := [BeginWrite, EndWrite, BeginWrite, EndWrite, StartTool(1)]
  const INITDB: seq<Step> := [Exits(1), ToolEnds, BeginWrite, EndWrite, StartTool(2)]
  const START: seq<Step> := [Born(3, 2, true), Claims(3), Exits(2), ToolEnds, Observe]
  const RECORD: seq<Step> := [StartTool(4), Exits(4), ToolEnds, BeginWrite, EndWrite]
  // A cleanup that confirms the postmaster; 5 is a foreign process and 6 `pg_ctl stop`.
  const CONFIRM: seq<Step> := [SetupEnds, CleanupBegins, Capture, Look, Born(5, 0, false)]
  const REPLACE: seq<Step> := [Exits(3), Claims(5), StopBegins(6)]

  const POSTMASTER: Process := Process(2, true)
  const PREPARED: State := State(
    Tool(Prepared, 0, None, 1), NoCleanup, Disk(true, Written(Prepared, None), None),
    World(map[1 := Process(0, true)], {0, 1}), false, Never)
  const STARTED: State := State(
    Tool(Starting, 0, None, 2), NoCleanup, Disk(true, Written(Starting, None), None),
    World(map[2 := Process(0, true)], {0, 1, 2}), false, Never)
  const OBSERVED: State := State(
    At(Starting, 2, Some(3)), NoCleanup, Disk(true, Written(Starting, None), Some(3)),
    World(map[3 := POSTMASTER], {0, 1, 2, 3}), false, Never)
  const RECORDED: State := State(
    At(Running, 0, Some(3)), NoCleanup, Disk(true, Written(Running, Some(3)), Some(3)),
    World(map[3 := POSTMASTER], {0, 1, 2, 3, 4}), false, Never)
  const CONFIRMED: State := State(
    Over, Confirmed({3}, 3), Disk(true, Written(Running, Some(3)), Some(3)),
    World(map[3 := POSTMASTER, 5 := Process(0, false)], {0, 1, 2, 3, 4, 5}), false, Never)

  lemma PreparesAndStarts()
    ensures Run(INITIAL, PREPARE) == PREPARED && Run(PREPARED, INITDB) == STARTED
  {
    RunFive(INITIAL, BeginWrite, EndWrite, BeginWrite, EndWrite, StartTool(1));
    RunFive(PREPARED, Exits(1), ToolEnds, BeginWrite, EndWrite, StartTool(2));
  }

  lemma Observes()
    ensures Run(STARTED, START) == OBSERVED
  {
    RunFive(STARTED, Born(3, 2, true), Claims(3), Exits(2), ToolEnds, Observe);
  }

  lemma Records()
    ensures Run(OBSERVED, RECORD) == RECORDED
  {
    RunFive(OBSERVED, StartTool(4), Exits(4), ToolEnds, BeginWrite, EndWrite);
  }

  lemma Confirms()
    ensures Run(RECORDED, CONFIRM) == CONFIRMED
  {
    RunFive(RECORDED, SetupEnds, CleanupBegins, Capture, Look, Born(5, 0, false));
    assert FromRoot(RECORDED.world) == {3};
  }

  lemma RunThree(s: State, a: Step, b: Step, c: Step)
    ensures Run(s, [a, b, c]) == Apply(Apply(Apply(s, a), b), c)
  {
    RunFirst(s, [a, b, c]);
    RunFirst(Apply(s, a), [b, c]);
    RunFirst(Apply(Apply(s, a), b), [c]);
  }

  lemma Replaces()
    ensures var s := Run(CONFIRMED, REPLACE);
            && s.replaced && s.disk.receipt == Written(Running, Some(3))
            && Apply(s, StopSignals).stops == More(5, s.stops)
  {
    RunThree(CONFIRMED, Exits(3), Claims(5), StopBegins(6));
  }

  /** The exception is real: a run from the initial state, with a whole setup, in which the
      recorded postmaster exits right after the look, a foreign process takes over the pid
      file, and `pg_ctl stop` reaches that one. */
  lemma ReplacementMayBeStopped() returns (steps: seq<Step>)
    ensures var s := Run(INITIAL, steps);
            && s.replaced && s.disk.receipt == Written(Running, Some(3))
            && Apply(s, StopSignals).stops == More(5, s.stops)
  {
    PreparesAndStarts();
    Observes();
    Records();
    Confirms();
    RunAppend(INITIAL, PREPARE, INITDB);
    RunAppend(INITIAL, PREPARE + INITDB, START);
    RunAppend(INITIAL, PREPARE + INITDB + START, RECORD);
    RunAppend(INITIAL, PREPARE + INITDB + START + RECORD, CONFIRM);
    RunAppend(INITIAL, PREPARE + INITDB + START + RECORD + CONFIRM, REPLACE);
    Replaces();
    steps := PREPARE + INITDB + START + RECORD + CONFIRM + REPLACE;
  }

  // ----- cleanup itself -----

  /** There is always an identity that no process had. */
  lemma {:induction false} Bound(ids: set<nat>) returns (n: nat)
    ensures forall id | id in ids :: id < n
    ensures n !in ids
    decreases |ids|
  {
    if ids == {} {
      n := 0;
    } else {
      var id :| id in ids;
      var rest := Bound(ids - {id});
      n := if id < rest then rest else id + 1;
      assert forall other | other in ids :: other == id || other in ids - {id};
    }
  }

  /** In state `s` the stop signal reached the running process that the pid file named, if
      any: another one than the recorded exactly if the file was replaced. */
  ghost predicate Signalled(s: State, before: Stops, after: Stops) {
    && s.cleanup.Stopping? && s.disk.receipt.Written?
    && if s.disk.pidFile.Some? && s.disk.pidFile.value in s.world.alive
       then after == More(s.disk.pidFile.value, before) && (s.disk.receipt.process != Some(after.id) <==> s.replaced)
       else after == before
  }

  // What each check finds in a state.

  predicate LookPasses(s: State) {
    s.disk.pidFile.None?
    || (s.disk.receipt.Written? && s.disk.receipt.process == s.disk.pidFile && s.disk.pidFile.value in s.world.alive)
  }

  ghost predicate Gone(s: State) {
    s.disk.pidFile.None? && NoneFromRoot(s.world)
  }

  predicate ToolRuns(s: State) {
    s.cleanup.Stopping? && s.cleanup.tool in s.world.alive
  }

  /** The moment of the check after the look of moment `n + 1`: at once without a pid file, and
      otherwise after the three moments of `pg_ctl stop`. */
  function QuietMoment(history: seq<State>, n: nat): (k: nat)
    requires n + 1 < |history|
  {
    if history[n + 1].disk.pidFile.None? then n + 2 else n + 5
  }

  /** Every check passed, each at its moment from `n` on: processes captured, pid file looked
      at, postmaster stopped, nothing left, captured processes drained. */
  ghost predicate Passed(history: seq<State>, n: nat, stopFails: bool) {
    && n + 1 < |history| && |history| == QuietMoment(history, n) + 3
    && LookPasses(history[n + 1])
    && (history[n + 1].disk.pidFile.Some? ==> !stopFails && !ToolRuns(history[n + 4]))
    && Gone(history[QuietMoment(history, n)])
    && DrainAbsent(history[QuietMoment(history, n) + 1].world, FromRoot(history[n].world))
  }

  /** The last moment is that of a check, and the check fails in it. */
  ghost predicate Refused(history: seq<State>, n: nat, stopFails: bool) {
    && n + 1 < |history|
    && var last := |history| - 1;
       || (last == n + 1 && !LookPasses(history[last]))
       || (last == n + 4 && history[n + 1].disk.pidFile.Some? && (stopFails || ToolRuns(history[last])))
       || (last == QuietMoment(history, n) && !Gone(history[last]))
       || (last == QuietMoment(history, n) + 1 && !DrainAbsent(history[last].world, FromRoot(history[n].world)))
  }

  class Machine {
    var disk: Disk
    var world: World
    ghost var cleanup: Cleanup
    ghost var replaced: bool
    ghost var history: seq<State>
    ghost var stops: Stops

    ghost function View(): State
      reads this
    {
      State(Over, cleanup, disk, world, replaced, stops)
    }

    /** Whatever other processes do meanwhile. */
    method Interfere()
      requires Inv(View())
      modifies this`disk, this`world, this`replaced, this`history
      ensures Inv(View()) && history == old(history) + [View()]
      ensures disk.root == old(disk.root) && disk.receipt == old(disk.receipt)
    {
      var n: nat :| n >= 0;
      for k := 0 to n
        invariant Inv(View()) && disk.root == old(disk.root) && disk.receipt == old(disk.receipt)
        invariant history == old(history)
      {
        var step: Step := *;
        if IsOutside(step) {
          OutsideKeeps(View(), step);
          ghost var u := OutsideStep(View(), step);
          var t := OutsideStep(State(Over, NoCleanup, disk, world, false, Never), step);
          disk, world, replaced := t.disk, t.world, u.replaced;
        }
      }
      history := history + [View()];
    }

    /** The checks up to the removal; on success nothing runs from the root. */
    method CheckQuiet(captured: set<nat>) returns (ok: bool)
      requires Inv(View()) && cleanup == Quiet(captured)
      modifies this`disk, this`world, this`replaced, this`history, this`cleanup
      ensures Inv(View()) && disk.root == old(disk.root) && disk.receipt == old(disk.receipt)
      ensures cleanup == if ok then Ready(captured) else NoCleanup
      ensures old(history) <= history
      ensures var m := |old(history)|;
              if ok then |history| == m + 2 && Gone(old(View())) && DrainAbsent(history[m].world, captured)
              else if |history| == m then !Gone(old(View()))
              else |history| == m + 1 && !DrainAbsent(history[m].world, captured)
    {
      CleanupKeeps(View(), CheckGone);
      EmptyFromRoot(world);
      if disk.pidFile.Some? || FromRoot(world) != {} {
        cleanup := NoCleanup;
        return false;
      }
      cleanup := Empty(captured);
      Interfere();
      CleanupKeeps(View(), CheckDrain);
      if !DrainAbsent(world, captured) {
        cleanup := NoCleanup;
        return false;
      }
      cleanup := Ready(captured);
      Interfere();
      return true;
    }

    /** The end of a cleanup that passed its checks. */
    method Remove(preserve: bool)
      requires Inv(View()) && cleanup.Ready?
      modifies this`disk, this`cleanup
      ensures Inv(View()) && cleanup.NoCleanup? && disk.root == preserve && NoneFromRoot(world)
      ensures preserve ==> disk == old(disk)
    {
      CleanupKeeps(View(), if preserve then Leave else Delete);
      cleanup := NoCleanup;
      if !preserve {
        disk := Disk(false, Missing, None);
      }
    }

    /** `currentProcess` against the recorded one, then `pg_ctl stop`; with `stopFails` the
        tool exits with an error. Nothing is stopped unless the pid file names the recorded
        process; otherwise whatever it names when the signal is sent, and that is another
        process exactly if the file was replaced by then. */
    method StopPostmaster(captured: set<nat>, stopFails: bool) returns (ok: bool)
      requires Inv(View()) && cleanup == Captured(captured)
      modifies this
      ensures Inv(View()) && disk.root == old(disk.root) && disk.receipt == old(disk.receipt)
      ensures cleanup == if ok then Quiet(captured) else NoCleanup
      ensures if Apply(old(View()), Look).cleanup.Confirmed?
              then |history| == |old(history)| + 3 && Signalled(history[|old(history)| + 1], old(stops), stops)
                   && history[|old(history)| + 1].disk.receipt == disk.receipt
                   && (ok <==> !stopFails && !ToolRuns(history[|old(history)| + 2]))
              else stops == old(stops) && history == old(history) && (ok <==> old(disk).pidFile.None?)
      ensures Apply(old(View()), Look).cleanup.Confirmed? <==> old(disk).pidFile.Some? && LookPasses(old(View()))
      ensures old(history) <= history
    {
      CleanupKeeps(View(), Look);
      if disk.pidFile.None? {
        cleanup := Quiet(captured);
        return true;
      }
      var named := disk.pidFile.value;
      if disk.receipt.process != Some(named) || named !in world.alive {
        cleanup := NoCleanup;
        return false;
      }
      cleanup, replaced := Confirmed(captured, named), false;
      Interfere();
      ok := FinishStop(captured, named, stopFails);
    }

    method FinishStop(captured: set<nat>, named: nat, stopFails: bool) returns (ok: bool)
      requires Inv(View()) && cleanup == Confirmed(captured, named)
      modifies this
      ensures Inv(View()) && disk.root == old(disk.root) && disk.receipt == old(disk.receipt)
      ensures cleanup == if ok then Quiet(captured) else NoCleanup
      ensures |history| == |old(history)| + 2 && Signalled(history[|old(history)|], old(stops), stops)
      ensures history[|old(history)|].disk.receipt == disk.receipt
      ensures old(history) <= history
      ensures ok <==> !stopFails && !ToolRuns(history[|old(history)| + 1])
    {
      var tool := SignalPostmaster(captured, named);
      Interfere();
      CleanupKeeps(View(), Leave);
      CleanupKeeps(View(), StopEnds);
      ok := !stopFails && tool !in world.alive;
      cleanup := if ok then Quiet(captured) else NoCleanup;
    }

    /** `pg_ctl stop` starts, and signals whatever process the pid file then names. */
    method SignalPostmaster(captured: set<nat>, named: nat) returns (tool: nat)
      requires Inv(View()) && cleanup == Confirmed(captured, named)
      modifies this
      ensures Inv(View()) && disk.root == old(disk.root) && disk.receipt == old(disk.receipt)
      ensures cleanup == Stopping(captured, named, tool)
      ensures |history| == |old(history)| + 1 && Signalled(history[|old(history)|], old(stops), stops)
      ensures history[|old(history)|].disk.receipt == disk.receipt
      ensures old(history) <= history
    {
      ghost var bound := Bound(world.used);
      tool :| tool !in world.used;
      CleanupKeeps(View(), StopBegins(tool));
      cleanup, world := Stopping(captured, named, tool), Birth(world, tool, Process(0, true));
      Interfere();
      CleanupKeeps(View(), StopSignals);
      if disk.pidFile.Some? && disk.pidFile.value in world.alive {
        stops := More(disk.pidFile.value, stops);
      }
    }

    /** A root that was never used, at the moment after the receipt was read. */
    method CleanPreparing(preserve: bool) returns (ok: bool)
      requires Inv(View()) && cleanup.Accepted? && PhaseOf(disk) == Some(Preparing)
      modifies this`disk, this`world, this`replaced, this`history, this`cleanup
      ensures Inv(View()) && cleanup.NoCleanup? && old(history) <= history
      ensures ok && disk.root == preserve && NoneFromRoot(world)
      ensures disk.root ==> disk.receipt == old(disk.receipt)
    {
      CleanupKeeps(View(), FindNone);
      EmptyFromRoot(world);
      ok := FromRoot(world) == {};
      cleanup := if ok then Ready({}) else NoCleanup;
      Interfere();
      if ok {
        Remove(preserve);
      }
    }

    /** The checks after the postmaster is gone, and the removal. */
    method RemoveQuiet(captured: set<nat>, preserve: bool) returns (ok: bool)
      requires Inv(View()) && cleanup == Quiet(captured)
      modifies this`disk, this`world, this`replaced, this`history, this`cleanup
      ensures Inv(View()) && cleanup.NoCleanup? && old(history) <= history
      ensures disk.root == (preserve || !ok) && (ok ==> NoneFromRoot(world))
      ensures disk.root ==> disk.receipt == old(disk.receipt)
      ensures var m := |old(history)|;
              if ok then |history| == m + 3 && Gone(history[m]) && DrainAbsent(history[m + 1].world, captured)
              else if |history| == m + 1 then !Gone(history[m])
              else |history| == m + 2 && !DrainAbsent(history[m + 1].world, captured)
    {
      Interfere();
      ok := CheckQuiet(captured);
      if ok {
        Remove(preserve);
      }
    }

    /** Any other root whose phase is not `Starting`. */
    method CleanUsed(preserve: bool, stopFails: bool) returns (ok: bool)
      requires Inv(View()) && cleanup.Accepted? && PhaseOf(disk) !in {Some(Preparing), Some(Starting)}
      requires history != [] && history[|history| - 1] == View()
      modifies this
      ensures Inv(View()) && cleanup.NoCleanup? && old(history) <= history
      ensures disk.root == (preserve || !ok) && (ok ==> NoneFromRoot(world))
      ensures disk.root ==> disk.receipt == old(disk.receipt)
      ensures if ok then Passed(history, |old(history)| - 1, stopFails) else Refused(history, |old(history)| - 1, stopFails)
    {
      CleanupKeeps(View(), Capture);
      var captured := FromRoot(world);
      cleanup := Captured(captured);
      Interfere();
      ok := StopPostmaster(captured, stopFails);
      if !ok {
        return;
      }
      ok := RemoveQuiet(captured, preserve);
    }

    /** Cleanup after setup ended somewhere, with any other process acting between its steps:
        it removes the root exactly if it succeeds and need not preserve it, and then nothing
        runs from it. It succeeds only if every check passed, and refuses only for a receipt
        that is torn, absent or in phase `Starting`, or for a check that failed at its moment;
        a root in phase `Preparing` is never refused. */
    method CleanUp(preserve: bool, stopFails: bool) returns (ok: bool)
      requires Inv(View()) && cleanup.NoCleanup?
      modifies this
      ensures Inv(View()) && cleanup.NoCleanup?
      ensures disk.root == (old(disk.root) && (preserve || !ok))
      ensures disk.root ==> disk.receipt == old(disk.receipt)
      ensures ok ==> old(disk.receipt).Written? && !old(disk.receipt).phase.Starting? && NoneFromRoot(world)
      ensures old(history) <= history
      ensures ok ==> old(disk.receipt).phase.Preparing? || Passed(history, |old(history)|, stopFails)
      ensures !ok ==> !old(disk.root) || PhaseOf(old(disk)) in {None, Some(Starting)}
                      || (PhaseOf(old(disk)) != Some(Preparing) && Refused(history, |old(history)|, stopFails))
    {
      if !disk.root || !disk.receipt.Written? {
        return false;
      }
      CleanupKeeps(View(), CleanupBegins);
      cleanup := Accepted;
      Interfere();
      if disk.receipt.phase.Preparing? {
        ok := CleanPreparing(preserve);
        return;
      }
      if disk.receipt.phase.Starting? {
        CleanupKeeps(View(), Capture);
        cleanup := NoCleanup;
        return false;
      }
      ok := CleanUsed(preserve, stopFails);
    }
  }
}
