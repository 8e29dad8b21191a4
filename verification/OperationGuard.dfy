/** The durable operation guard of the ARM64 runner: a receipt on disk names the operation
    in progress, it is cleared only when the executor is drained, and cleanup reads it.
    The process may crash between any two steps, a save may fail at any point, and a
    child may outlive the process that started it. */
module OperationGuard {

  datatype Activity = NoOperation | Operation(name: string)

  datatype Disk = Absent | Receipt(active: Activity)

  /** The temporary file of a save: absent, partly written, complete, or left by a save that
      failed, so that no later one of the same process can create it. */
  datatype Temporary = NoFile | Torn | Complete(active: Activity) | Stale

  /** Why a save runs, and so where control goes when it ends. */
  datatype Purpose = BeginOperation | EndOperation | Progress(running: bool)

  datatype Pc = Idle | Running | Saving(purpose: Purpose) | Crashed

  /** `memory` is `value.activeOperation`. `watched` are the children of this process whose
      close event is still to come; `alive` and `guarded` are facts of the machine: the
      children that still run, and those that were ever started inside an operation. */
  datatype State = State(
    pc: Pc, memory: Activity, disk: Disk, temporary: Temporary, uncertain: bool,
    watched: set<nat>, alive: set<nat>, guarded: set<nat>)

  const INITIAL: State := State(Idle, NoOperation, Absent, NoFile, false, {}, {}, {})

  datatype Step =
    | Begin(name: string)
    | End
    | SaveProgress
    | SaveOpens
    | SaveWrites
    | SaveRenames
    | SaveFails
    | ChildStarts(id: nat)
    | ChildExits(id: nat)
    | CloseEvent(id: nat)
    | Trouble
    | Crash
    | Restart
    | TakeOver

  predicate Drained(s: State) {
    s.watched == {} && !s.uncertain
  }

  /** Control after a save; a failed begin throws before the operation body is entered. */
  function Resume(purpose: Purpose, saved: bool): (pc: Pc) {
    match purpose
    case BeginOperation => if saved then Running else Idle
    case EndOperation => Idle
    case Progress(running) => if running then Running else Idle
  }

  /** A step that is not enabled changes nothing. */
  function Apply(s: State, step: Step): (t: State) {
    match step
    case Begin(name) =>
      if s.pc.Idle? && s.memory.NoOperation? then s.(memory := Operation(name), pc := Saving(BeginOperation)) else s
    case End =>
      if !s.pc.Running? then s
      else if Drained(s) then s.(memory := NoOperation, pc := Saving(EndOperation))
      else s.(pc := Idle)
    case SaveProgress =>
      if s.pc.Idle? || s.pc.Running? then s.(pc := Saving(Progress(s.pc.Running?))) else s
    case SaveOpens => if s.pc.Saving? && s.temporary.NoFile? then s.(temporary := Torn) else s
    case SaveWrites => if s.pc.Saving? && s.temporary.Torn? then s.(temporary := Complete(s.memory)) else s
    case SaveRenames =>
      if s.pc.Saving? && s.temporary.Complete?
      then s.(disk := Receipt(s.temporary.active), temporary := NoFile, pc := Resume(s.pc.purpose, true)) else s
    case SaveFails =>
      if s.pc.Saving?
      then s.(temporary := if s.temporary.NoFile? then NoFile else Stale, pc := Resume(s.pc.purpose, false))
      else s
    case ChildStarts(id) =>
      if id in s.watched || id in s.alive || id in s.guarded || !(s.pc.Idle? || s.pc.Running?) then s
      else s.(watched := s.watched + {id}, alive := s.alive + {id},
              guarded := if s.pc.Running? then s.guarded + {id} else s.guarded)
    case ChildExits(id) => s.(alive := s.alive - {id})
    case CloseEvent(id) =>
      if !s.pc.Crashed? && id in s.watched && id !in s.alive then s.(watched := s.watched - {id}) else s
    case Trouble => s.(uncertain := true)
    case Crash => s.(pc := Crashed)
    case Restart =>
      // A new process, with a temporary file name of its own, adopts only a clear receipt.
      if s.pc.Crashed? && s.disk == Receipt(NoOperation)
      then s.(pc := Idle, memory := NoOperation, temporary := NoFile, uncertain := false, watched := {}) else s
    case TakeOver =>
      // The same process cleans up with a fresh executor after the old one was drained.
      if s.pc.Idle? && Drained(s) && s.disk == Receipt(NoOperation) then s.(memory := NoOperation) else s
  }

  function Run(s: State, steps: seq<Step>): (t: State)
    decreases |steps|
  {
    if steps == [] then s else Run(Apply(s, steps[0]), steps[1..])
  }

  /** Cleanup may remove the owned state: the receipt it read and the value it holds are
      clear and its own executor is drained. */
  predicate MayRemove(s: State) {
    s.pc.Idle? && s.disk == Receipt(NoOperation) && s.memory.NoOperation? && Drained(s)
  }

  /** The guarded children that are open: they run, or this process did not yet see them
      close. */
  ghost function Open(s: State): (ids: set<nat>) {
    s.guarded * (s.alive + s.watched)
  }

  ghost predicate InOperation(pc: Pc) {
    pc.Running? || pc == Saving(Progress(true))
  }

  ghost predicate Inv(s: State) {
    && (s.disk == Receipt(NoOperation) ==> Open(s) == {})
    && (!s.pc.Crashed? ==>
        && s.guarded * s.alive <= s.watched
        && (s.memory.NoOperation? ==> Open(s) == {})
        && (InOperation(s.pc) ==> s.memory.Operation? && s.disk == Receipt(s.memory))
        && (s.pc == Saving(BeginOperation) ==> s.memory.Operation?)
        && (s.pc.Saving? && s.temporary.Complete? ==> s.temporary.active == s.memory)
        && (s.temporary.Complete? ==> s.pc.Saving?))
  }

  lemma ApplyKeeps(s: State, step: Step)
    requires Inv(s)
    ensures Inv(Apply(s, step))
  {
    var t := Apply(s, step);
    match step {
      case ChildExits(id) =>
        assert t.guarded * t.alive <= s.guarded * s.alive;
      case CloseEvent(id) =>
        assert s.guarded * s.alive == t.guarded * t.alive;
      case ChildStarts(id) =>
        if t != s {
          assert t.guarded * t.alive == s.guarded * s.alive + (if s.pc.Running? then {id} else {});
        }
      case _ =>
    }
  }

  lemma {:induction false} RunKeeps(s: State, steps: seq<Step>)
    requires Inv(s)
    ensures Inv(Run(s, steps))
    decreases |steps|
  {
    if steps != [] {
      ApplyKeeps(s, steps[0]);
      RunKeeps(Apply(s, steps[0]), steps[1..]);
    }
  }

  /** In every run, with crashes, failed saves and children that never close: a readable
      receipt without an active operation means that no child started inside an operation
      is still open, so cleanup never proceeds past an undrained guarded child. */
  lemma ClearReceiptMeansDrained(steps: seq<Step>)
    ensures var s := Run(INITIAL, steps);
            && (s.disk == Receipt(NoOperation) ==> Open(s) == {})
            && (MayRemove(s) ==> Open(s) == {} && s.watched == {} && !s.uncertain && s.memory.NoOperation?)
  {
    RunKeeps(INITIAL, steps);
  }

  /** While an operation's body runs, the receipt on disk names exactly that operation. */
  lemma RunningIsRecorded(steps: seq<Step>)
    ensures var s := Run(INITIAL, steps);
            s.pc.Running? ==> s.memory.Operation? && s.disk == Receipt(s.memory)
  {
    RunKeeps(INITIAL, steps);
  }

  const PUBLISHED: seq<Step> := [SaveProgress, SaveOpens, SaveWrites, SaveRenames]

  lemma RunAppend(s: State, a: seq<Step>, b: seq<Step>)
    ensures Run(s, a + b) == Run(Run(s, a), b)
    decreases |a|
  {
    if a == [] {
      assert a + b == b;
    } else {
      assert (a + b)[0] == a[0] && (a + b)[1..] == a[1..] + b;
      RunAppend(Apply(s, a[0]), a[1..], b);
    }
  }

  lemma RunFirst(s: State, steps: seq<Step>)
    requires steps != []
    ensures Run(s, steps) == Run(Apply(s, steps[0]), steps[1..])
  {
  }

  lemma RunFour(s: State, a: Step, b: Step, c: Step, d: Step)
    ensures Run(s, [a, b, c, d]) == Apply(Apply(Apply(Apply(s, a), b), c), d)
  {
    var t := Apply(Apply(s, a), b);
    RunFirst(s, [a, b, c, d]);
    RunFirst(Apply(s, a), [b, c, d]);
    RunFirst(t, [c, d]);
    RunFirst(Apply(t, c), [d]);
  }

  function Saved(t: State): (u: State)
    requires t.pc.Saving?
  {
    t.(disk := Receipt(t.memory), pc := Resume(t.pc.purpose, true))
  }

  /** A save that nothing disturbs puts the state in memory on disk. */
  lemma SaveSucceeds(s: State, step: Step)
    requires s.temporary.NoFile? && Apply(s, step).pc.Saving? && Apply(s, step).temporary.NoFile?
    ensures Run(s, [step, SaveOpens, SaveWrites, SaveRenames]) == Saved(Apply(s, step))
  {
    RunFour(s, step, SaveOpens, SaveWrites, SaveRenames);
  }

  /** An operation begins by naming itself on disk; its body runs afterwards. */
  lemma BeginIsRecorded(s: State, name: string)
    requires s.pc.Idle? && s.memory.NoOperation? && s.temporary.NoFile?
    ensures Run(s, [Begin(name), SaveOpens, SaveWrites, SaveRenames])
         == s.(pc := Running, memory := Operation(name), disk := Receipt(Operation(name)))
  {
    SaveSucceeds(s, Begin(name));
  }

  /** It ends, when the executor is drained, by clearing the receipt. */
  lemma DrainedEndClears(s: State)
    requires s.pc.Running? && Drained(s) && s.temporary.NoFile?
    ensures Run(s, [End, SaveOpens, SaveWrites, SaveRenames])
         == s.(pc := Idle, memory := NoOperation, disk := Receipt(NoOperation))
  {
    SaveSucceeds(s, End);
  }

  /** A save is atomic and its own: the receipt only ever becomes a complete temporary file,
      which was created by the same save and not left by an earlier one. */
  lemma SavesAreAtomic(s: State, step: Step)
    ensures var t := Apply(s, step);
            && (t.disk != s.disk ==> s.temporary.Complete? && t.disk == Receipt(s.temporary.active))
            && (t.temporary.Complete? && t.temporary != s.temporary ==> s.temporary.Torn? && t.temporary.active == s.memory)
            && (t.temporary.Torn? && !s.temporary.Torn? ==> s.temporary.NoFile?)
            && (s.temporary.Stale? && !t.temporary.Stale? ==> step.Restart?)
  {
  }

  /** Progress is saved without ending the operation that runs. */
  lemma ProgressIsSaved(s: State)
    requires (s.pc.Idle? || s.pc.Running?) && s.temporary.NoFile?
    ensures Run(s, [SaveProgress, SaveOpens, SaveWrites, SaveRenames]) == s.(disk := Receipt(s.memory))
  {
    SaveSucceeds(s, SaveProgress);
  }

  /** Over a clear receipt cleanup may always proceed: in the same process once its executor
      is drained, and in a new one after a crash. */
  lemma ClearReceiptMayBeCleaned(s: State)
    requires s.disk == Receipt(NoOperation)
    ensures s.pc.Idle? && Drained(s) ==> MayRemove(Apply(s, TakeOver))
    ensures MayRemove(Apply(Apply(s, Crash), Restart))
  {
  }

  /** A child that starts is watched, and guarded exactly inside an operation, and stays
      watched until it exited and its close event came. */
  lemma StartedIsWatched(s: State, id: nat, step: Step)
    requires (s.pc.Idle? || s.pc.Running?) && id !in s.watched && id !in s.alive && id !in s.guarded
    ensures var t := Apply(s, ChildStarts(id));
            && id in t.watched && id in t.alive && (id in t.guarded <==> s.pc.Running?)
            && (id !in Apply(t, step).watched ==> step.Restart?)
            && (id !in Apply(t, step).alive <==> step == ChildExits(id))
    ensures id !in Apply(Apply(Apply(s, ChildStarts(id)), ChildExits(id)), CloseEvent(id)).watched
  {
  }

  /** A kill, a signal or a late error is remembered as long as the process lives: its executor
      never counts as drained again. */
  lemma {:induction false} TroubleIsRemembered(s: State, steps: seq<Step>)
    requires s.uncertain && Restart !in steps
    ensures Run(s, steps).uncertain && !Drained(Run(s, steps))
    decreases |steps|
  {
    if steps != [] {
      assert steps[0] in steps;
      TroubleIsRemembered(Apply(s, steps[0]), steps[1..]);
    }
  }

  lemma TroubleIsNoticed(s: State)
    ensures Apply(s, Trouble).uncertain
  {
  }

  /** The operation is over, its receipt was not cleared, and nothing will clear it. */
  ghost predicate Stuck(s: State, name: string) {
    && s.disk == Receipt(Operation(name))
    && (s.pc.Crashed?
        || (s.memory == Operation(name) && (s.pc.Idle? || s.pc == Saving(Progress(false)))
            && (s.temporary.Complete? ==> s.temporary.active == s.memory)))
  }

  lemma StuckStays(s: State, step: Step, name: string)
    requires Stuck(s, name)
    ensures Stuck(Apply(s, step), name)
  {
  }

  lemma {:induction false} StuckRun(s: State, steps: seq<Step>, name: string)
    requires Stuck(s, name)
    ensures Stuck(Run(s, steps), name) && !MayRemove(Run(s, steps))
    decreases |steps|
  {
    if steps != [] {
      StuckStays(s, steps[0], name);
      StuckRun(Apply(s, steps[0]), steps[1..], name);
    }
  }

  /** An operation that ends, or crashes, undrained keeps its receipt for ever: cleanup never
      removes the state, whatever happens afterwards. */
  lemma UndrainedIsPreserved(before: seq<Step>, after: seq<Step>, ending: Step)
    requires ending.End? || ending.Crash?
    requires var s := Run(INITIAL, before); s.pc.Running? && (ending.End? ==> !Drained(s))
    ensures var s := Run(INITIAL, before);
            var t := Run(Apply(s, ending), after);
            t.disk == s.disk && t.disk == Receipt(s.memory) && !MayRemove(t)
  {
    RunKeeps(INITIAL, before);
    var s := Run(INITIAL, before);
    StuckRun(Apply(s, ending), after, s.memory.name);
  }

  /** The guard covers operations only: in every reachable idle state with a clear receipt a
      child can be started that outlives a crash while the receipt stays clear. */
  lemma UnguardedChildMaySurvive(steps: seq<Step>, id: nat)
    requires Run(INITIAL, steps).pc.Idle? && Run(INITIAL, steps).disk == Receipt(NoOperation)
    requires var s := Run(INITIAL, steps); id !in s.watched && id !in s.alive && id !in s.guarded
    ensures var t := Apply(Apply(Apply(Run(INITIAL, steps), ChildStarts(id)), Crash), Restart);
            MayRemove(t) && id in t.alive && id !in t.guarded
  {
  }

  /** Some run lets cleanup remove the owned state while the child still runs. */
  ghost predicate SurvivesRemoval(id: nat, guarded: bool) {
    exists steps :: var s := Run(INITIAL, steps);
                    MayRemove(s) && id in s.alive && (id in s.guarded <==> guarded)
  }

  /** Exactly the children started outside every operation can still run when cleanup may
      remove the owned state. */
  lemma SurvivesExactlyWhenUnguarded(id: nat, guarded: bool)
    ensures SurvivesRemoval(id, guarded) <==> !guarded
  {
    if SurvivesRemoval(id, guarded) {
      var steps :| var s := Run(INITIAL, steps);
                   MayRemove(s) && id in s.alive && (id in s.guarded <==> guarded);
      ClearReceiptMeansDrained(steps);
      assert id in Run(INITIAL, steps).guarded ==> id in Open(Run(INITIAL, steps));
    }
    if !guarded {
      RunFour(INITIAL, SaveProgress, SaveOpens, SaveWrites, SaveRenames);
      var last := [ChildStarts(id), Crash, Restart, SaveFails];
      RunFour(Run(INITIAL, PUBLISHED), ChildStarts(id), Crash, Restart, SaveFails);
      RunAppend(INITIAL, PUBLISHED, last);
      UnguardedChildMaySurvive(PUBLISHED, id);
      assert MayRemove(Run(INITIAL, PUBLISHED + last));
    }
  }
}
