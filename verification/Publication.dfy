/** Exclusive publication by hard link. Any number of publishers, which may share a
    temporary name, race for one final name; each file-system call is a step, a call may
    fail and a publisher may crash anywhere. A digest comparison compares contents. */
module Publication {
  import opened Wrappers

  datatype Pc = Create | Writing(count: nat) | Inspect | Link | Verify | Unlink | Returned | Stopped

  /** One call: the names and bytes it was given, the inode it created, and what it read
      back before linking. */
  datatype Publisher = Publisher(
    pc: Pc, temporary: string, bytes: string, inode: Option<nat>, original: Option<nat>, digest: string)

  /** Directory and inode table, and the publishers by id. `winner` is the publisher whose
      link call succeeded. */
  datatype System = System(
    final: Option<nat>, temporaries: map<string, nat>, contents: map<nat, string>, next: nat,
    publishers: map<nat, Publisher>, winner: Option<nat>)

  /** Nothing is published, no temporary file of these publishers exists, nobody started. */
  ghost predicate Initial(s: System) {
    && s.final == None && s.winner == None
    && (forall i | i in s.contents :: i < s.next)
    && (forall path | path in s.temporaries :: s.temporaries[path] in s.contents)
    && (forall p | p in s.publishers :: s.publishers[p].pc == Create && s.publishers[p].inode == None)
  }

  function With(s: System, id: nat, p: Publisher): (t: System) {
    s.(publishers := s.publishers[id := p])
  }

  function Stop(s: System, id: nat): (t: System)
    requires id in s.publishers
  {
    With(s, id, s.publishers[id].(pc := Stopped))
  }

  /** The next call of one publisher; `amount` is how many bytes a write call takes. */
  function Advance(s: System, id: nat, amount: nat): (t: System)
    requires id in s.publishers
  {
    var p := s.publishers[id];
    match p.pc
    case Create =>
      if p.temporary in s.temporaries then Stop(s, id)
      else
        With(s.(temporaries := s.temporaries[p.temporary := s.next], contents := s.contents[s.next := ""], next := s.next + 1),
             id, p.(pc := Writing(0), inode := Some(s.next)))
    case Writing(count) =>
      if count >= |p.bytes| then With(s, id, p.(pc := Inspect))
      else if count + amount <= |p.bytes| && p.inode.Some? then
        With(s.(contents := s.contents[p.inode.value := p.bytes[..count + amount]]), id, p.(pc := Writing(count + amount)))
      else s
    case Inspect =>
      if p.temporary !in s.temporaries || s.temporaries[p.temporary] !in s.contents then Stop(s, id)
      else
        var i := s.temporaries[p.temporary];
        With(s, id, p.(pc := Link, original := Some(i), digest := s.contents[i]))
    case Link =>
      if s.final.Some? || p.temporary !in s.temporaries then Stop(s, id)
      else With(s.(final := Some(s.temporaries[p.temporary]), winner := Some(id)), id, p.(pc := Verify))
    case Verify =>
      if s.final == p.original && s.final.Some? && s.final.value in s.contents && s.contents[s.final.value] == p.digest
         && p.temporary in s.temporaries && s.temporaries[p.temporary] == s.final.value
      then With(s, id, p.(pc := Unlink)) else Stop(s, id)
    case Unlink =>
      With(s.(temporaries := map path | path in s.temporaries && path != p.temporary :: s.temporaries[path]),
           id, p.(pc := Returned))
    case Returned => s
    case Stopped => s
  }

  datatype Step = Advances(id: nat, amount: nat) | FailsOrCrashes(id: nat)

  function Apply(s: System, step: Step): (t: System) {
    if step.id !in s.publishers then s
    else match step
      case Advances(id, amount) => Advance(s, id, amount)
      case FailsOrCrashes(id) => if s.publishers[id].pc.Returned? then s else Stop(s, id)
  }

  function Run(s: System, steps: seq<Step>): (t: System)
    decreases |steps|
  {
    if steps == [] then s else Run(Apply(s, steps[0]), steps[1..])
  }

  // ----- what every step keeps -----

  predicate Active(pc: Pc) {
    pc.Writing? || pc.Inspect? || pc.Link? || pc.Verify? || pc.Unlink?
  }

  /** An active publisher owns its temporary name; its inode holds what it has written. */
  predicate Owner(s: System, id: nat)
    requires id in s.publishers
  {
    var p := s.publishers[id];
    && (p.pc.Create? ==> p.inode.None?)
    && (p.inode.Some? ==> p.inode.value in s.contents && p.inode.value < s.next)
    && (Active(p.pc) ==> p.inode.Some? && p.temporary in s.temporaries && s.temporaries[p.temporary] == p.inode.value)
    && (p.pc.Writing? ==> p.pc.count <= |p.bytes| && s.contents[p.inode.value] == p.bytes[..p.pc.count])
    && (p.pc.Inspect? || p.pc.Link? || p.pc.Verify? || p.pc.Unlink? ==> s.contents[p.inode.value] == p.bytes)
    && (p.pc.Link? || p.pc.Verify? || p.pc.Unlink? ==> p.original == p.inode && p.digest == p.bytes)
    && (p.pc.Verify? || p.pc.Unlink? || p.pc.Returned? ==> s.winner == Some(id))
    && (p.pc.Returned? ==> p.inode.Some? && (p.temporary in s.temporaries ==> s.temporaries[p.temporary] != p.inode.value))
  }

  ghost predicate Inv(s: System) {
    && (forall i | i in s.contents :: i < s.next)
    && (forall path | path in s.temporaries :: s.temporaries[path] in s.contents)
    && (forall id | id in s.publishers :: Owner(s, id))
    && (forall a, b | a in s.publishers && b in s.publishers && a != b ::
          s.publishers[a].inode.None? || s.publishers[a].inode != s.publishers[b].inode)
    && (s.final.Some? <==> s.winner.Some?)
    && (s.winner.Some? ==> WinnerComplete(s))
  }

  predicate WinnerComplete(s: System)
    requires s.winner.Some?
  {
    && s.winner.value in s.publishers
    && var w := s.publishers[s.winner.value];
      && s.final == w.inode && w.inode.Some? && w.inode.value in s.contents
      && s.contents[w.inode.value] == w.bytes
      && (w.pc.Verify? || w.pc.Unlink? || w.pc.Returned? || w.pc.Stopped?)
  }

  lemma StopKeeps(s: System, id: nat)
    requires Inv(s) && id in s.publishers
    ensures Inv(Stop(s, id))
  {
    var t := Stop(s, id);
    assert Owner(s, id);
    forall other | other in t.publishers
      ensures Owner(t, other)
    {
      assert Owner(s, other);
    }
  }

  lemma CreateKeeps(s: System, id: nat, amount: nat)
    requires Inv(s) && id in s.publishers && s.publishers[id].pc.Create?
    ensures Inv(Advance(s, id, amount))
  {
    var t := Advance(s, id, amount);
    assert Owner(s, id);
    forall other | other in t.publishers
      ensures Owner(t, other)
    {
      assert Owner(s, other);
    }
  }

  lemma WriteOwns(s: System, id: nat, amount: nat, other: nat)
    requires Inv(s) && id in s.publishers && s.publishers[id].pc.Writing? && other in s.publishers
    ensures Owner(Advance(s, id, amount), other)
  {
    assert Owner(s, id) && Owner(s, other);
  }

  lemma WriteKeeps(s: System, id: nat, amount: nat)
    requires Inv(s) && id in s.publishers && s.publishers[id].pc.Writing?
    ensures Inv(Advance(s, id, amount))
  {
    var t := Advance(s, id, amount);
    assert Owner(s, id);
    forall other | other in t.publishers
      ensures Owner(t, other)
    {
      WriteOwns(s, id, amount, other);
    }
  }

  lemma InspectKeeps(s: System, id: nat, amount: nat)
    requires Inv(s) && id in s.publishers && s.publishers[id].pc.Inspect?
    ensures Inv(Advance(s, id, amount))
  {
    var t := Advance(s, id, amount);
    assert Owner(s, id);
    forall other | other in t.publishers
      ensures Owner(t, other)
    {
      assert Owner(s, other);
    }
  }

  lemma LinkKeeps(s: System, id: nat, amount: nat)
    requires Inv(s) && id in s.publishers && s.publishers[id].pc.Link?
    ensures Inv(Advance(s, id, amount))
  {
    var t := Advance(s, id, amount);
    assert Owner(s, id);
    forall other | other in t.publishers
      ensures Owner(t, other)
    {
      assert Owner(s, other);
    }
  }

  lemma VerifyKeeps(s: System, id: nat, amount: nat)
    requires Inv(s) && id in s.publishers && s.publishers[id].pc.Verify?
    ensures Inv(Advance(s, id, amount))
  {
    var t := Advance(s, id, amount);
    assert Owner(s, id);
    forall other | other in t.publishers
      ensures Owner(t, other)
    {
      assert Owner(s, other);
    }
  }

  lemma UnlinkKeeps(s: System, id: nat, amount: nat)
    requires Inv(s) && id in s.publishers && s.publishers[id].pc.Unlink?
    ensures Inv(Advance(s, id, amount))
  {
    var t := Advance(s, id, amount);
    assert Owner(s, id);
    forall other | other in t.publishers
      ensures Owner(t, other)
    {
      assert Owner(s, other);
    }
  }

  lemma ApplyKeeps(s: System, step: Step)
    requires Inv(s)
    ensures Inv(Apply(s, step))
  {
    if step.id in s.publishers {
      StopKeeps(s, step.id);
      if step.Advances? {
        match s.publishers[step.id].pc {
          case Create => CreateKeeps(s, step.id, step.amount);
          case Writing(_) => WriteKeeps(s, step.id, step.amount);
          case Inspect => InspectKeeps(s, step.id, step.amount);
          case Link => LinkKeeps(s, step.id, step.amount);
          case Verify => VerifyKeeps(s, step.id, step.amount);
          case Unlink => UnlinkKeeps(s, step.id, step.amount);
          case _ =>
        }
      }
    }
  }

  lemma {:induction false} RunKeeps(s: System, steps: seq<Step>)
    requires Inv(s)
    ensures Inv(Run(s, steps))
    decreases |steps|
  {
    if steps != [] {
      ApplyKeeps(s, steps[0]);
      RunKeeps(Apply(s, steps[0]), steps[1..]);
    }
  }

  // ----- main results -----

  /** With any number of publishers and a crash or failed call at any step, the final name
      is absent or names the complete bytes of the one publisher that linked it, and a
      publisher returns normally only if it is that one. */
  lemma PublicationIsExclusive(s: System, steps: seq<Step>)
    requires Initial(s)
    ensures var t := Run(s, steps);
            && (t.final.Some? <==> t.winner.Some?)
            && (t.winner.Some? ==>
                && t.winner.value in t.publishers && t.final.value in t.contents
                && t.contents[t.final.value] == t.publishers[t.winner.value].bytes)
            && (forall id | id in t.publishers && t.publishers[id].pc.Returned? :: t.winner == Some(id))
  {
    RunKeeps(s, steps);
    var t := Run(s, steps);
    forall id | id in t.publishers && t.publishers[id].pc.Returned?
      ensures t.winner == Some(id)
    {
      assert Owner(t, id);
    }
  }

  /** A publisher that returned left no temporary name of its own behind: the published inode
      is no longer reached through it. */
  lemma ReturnedLeavesNoTemporary(s: System, steps: seq<Step>, id: nat)
    requires Initial(s)
    ensures var t := Run(s, steps);
            id in t.publishers && t.publishers[id].pc.Returned? ==>
              && t.final.Some?
              && (t.publishers[id].temporary in t.temporaries ==> t.temporaries[t.publishers[id].temporary] != t.final.value)
  {
    RunKeeps(s, steps);
    var t := Run(s, steps);
    if id in t.publishers {
      assert Owner(t, id);
    }
  }

  /** A publisher that nobody disturbs publishes: its bytes under the final name, its temporary
      name gone, everything else as it was. */
  lemma UndisturbedPublisherReturns(s: System, id: nat)
    requires Initial(s) && id in s.publishers && s.publishers[id].temporary !in s.temporaries
    ensures var p := s.publishers[id];
            var made := Advance(s, id, 0);
            var written := if p.bytes == "" then Advance(made, id, 0) else Advance(Advance(made, id, |p.bytes|), id, 0);
            var t := Advance(Advance(Advance(Advance(written, id, 0), id, 0), id, 0), id, 0);
            && t.publishers[id].pc.Returned? && t.winner == Some(id)
            && t.final == Some(s.next) && t.contents == s.contents[s.next := p.bytes]
            && t.temporaries == s.temporaries && t.publishers.Keys == s.publishers.Keys
  {
    var p := s.publishers[id];
    var made := Advance(s, id, 0);
    var written := if p.bytes == "" then Advance(made, id, 0) else Advance(Advance(made, id, |p.bytes|), id, 0);
    assert p.bytes[..|p.bytes|] == p.bytes;
    assert written.contents == s.contents[s.next := p.bytes];
    assert written == s.(temporaries := s.temporaries[p.temporary := s.next], contents := s.contents[s.next := p.bytes],
                         next := s.next + 1, publishers := s.publishers[id := p.(pc := Inspect, inode := Some(s.next))]);
    InspectedPublisherReturns(s, written, id);
  }

  lemma InspectedPublisherReturns(s: System, written: System, id: nat)
    requires Initial(s) && id in s.publishers && s.publishers[id].temporary !in s.temporaries
    requires var p := s.publishers[id];
             written == s.(temporaries := s.temporaries[p.temporary := s.next], contents := s.contents[s.next := p.bytes],
                           next := s.next + 1, publishers := s.publishers[id := p.(pc := Inspect, inode := Some(s.next))])
    ensures var t := Advance(Advance(Advance(Advance(written, id, 0), id, 0), id, 0), id, 0);
            && t.publishers[id].pc.Returned? && t.winner == Some(id)
            && t.final == Some(s.next) && t.contents == s.contents[s.next := s.publishers[id].bytes]
            && t.temporaries == s.temporaries && t.publishers.Keys == s.publishers.Keys
  {
    var linked := Advance(Advance(written, id, 0), id, 0);
    assert linked.final == Some(s.next) && linked.publishers[id].pc.Verify?;
    var verified := Advance(linked, id, 0);
    assert verified.publishers[id].pc.Unlink?;
  }

  /** One step never moves or rewrites what was published. */
  lemma StepPreservesFinal(s: System, step: Step)
    requires Inv(s) && s.final.Some?
    ensures var t := Apply(s, step);
            && t.final == s.final && t.winner == s.winner
            && s.final.value in s.contents && s.final.value in t.contents
            && t.contents[s.final.value] == s.contents[s.final.value]
  {
    if step.id in s.publishers {
      assert Owner(s, step.id);
    }
  }

  /** Once linked, the final file keeps its name, inode and bytes in every continuation. */
  lemma {:induction false} PublishedForever(s: System, steps: seq<Step>)
    requires Inv(s) && s.final.Some?
    ensures var t := Run(s, steps);
            && t.final == s.final
            && s.final.value in s.contents && s.final.value in t.contents
            && t.contents[s.final.value] == s.contents[s.final.value]
    decreases |steps|
  {
    if steps != [] {
      StepPreservesFinal(s, steps[0]);
      ApplyKeeps(s, steps[0]);
      PublishedForever(Apply(s, steps[0]), steps[1..]);
    }
  }

  /** Taking over an existing lease file: accepted only when its bytes are the expected ones. */
  function AdoptExisting(s: System, bytes: string): (r: Result<(), string>)
    requires s.final.Some?
  {
    if s.final.value in s.contents && s.contents[s.final.value] == bytes then Ok(()) else Err("different lease")
  }

  /** No step changes what a publisher was given to publish. */
  lemma StepKeepsBytes(s: System, step: Step, id: nat)
    requires id in s.publishers
    ensures id in Apply(s, step).publishers && Apply(s, step).publishers[id].bytes == s.publishers[id].bytes
  {
  }

  lemma {:induction false} RunKeepsBytes(s: System, steps: seq<Step>, id: nat)
    ensures id in Run(s, steps).publishers <==> id in s.publishers
    ensures id in s.publishers ==> Run(s, steps).publishers[id].bytes == s.publishers[id].bytes
    decreases |steps|
  {
    if steps != [] {
      if id in s.publishers {
        StepKeepsBytes(s, steps[0], id);
      }
      RunKeepsBytes(Apply(s, steps[0]), steps[1..], id);
    }
  }

  /** Writing a lease succeeds, by publishing or by finding a file, only if the lease file
      holds exactly its bytes, also when the publisher that linked it crashed afterwards; so
      any two writers that succeed wrote the same lease. */
  lemma SuccessfulWritersAgree(s: System, steps: seq<Step>, bytes: string)
    requires Initial(s)
    ensures var t := Run(s, steps);
            && (t.final.Some? ==>
                && t.winner.Some? && t.winner.value in s.publishers
                && (AdoptExisting(t, bytes).Ok? <==> bytes == s.publishers[t.winner.value].bytes))
            && (forall id | id in t.publishers && t.publishers[id].pc.Returned? :: t.final.Some? && t.winner == Some(id))
  {
    PublicationIsExclusive(s, steps);
    var t := Run(s, steps);
    if t.winner.Some? {
      RunKeepsBytes(s, steps, t.winner.value);
    }
  }
}
