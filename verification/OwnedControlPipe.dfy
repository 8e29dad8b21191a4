/** The control pipe of an owned native process: the bytes the parent writes, and the
    commands the controller makes of them when it reads them in arbitrary chunks. */
module OwnedControlPipe {
  import opened LineFraming
  import opened OwnedCommands
  import C = OwnedController

  const READ_LIMIT: nat := 4096

  /** Every byte that entered the pipe, how many of them the controller read, whether the
      writing side is closed, and whether the parent's start line is among them. */
  datatype ControlPipe = ControlPipe(sent: string, taken: nat, ended: bool, startWritten: bool)

  const UNUSED: ControlPipe := ControlPipe("", 0, false, false)

  function StartLine(nonce: string): (line: string) {
    "start:" + nonce
  }

  function StopLine(nonce: string): (line: string) {
    "stop:" + nonce
  }

  lemma LinesDiffer(nonce: string)
    ensures StartLine(nonce) != StopLine(nonce)
  {
    assert StartLine(nonce)[2] != StopLine(nonce)[2];
  }

  function Write(p: ControlPipe, line: string): (q: ControlPipe) {
    p.(sent := p.sent + (line + "\n"))
  }

  /** The writer goes away, possibly in the middle of a line. */
  function Break(p: ControlPipe, partial: string): (q: ControlPipe) {
    p.(sent := p.sent + partial, ended := true)
  }

  function Classify(line: string, nonce: string): (command: C.Command) {
    if line == StartLine(nonce) then C.Start else if line == StopLine(nonce) then C.Stop else C.Garbage
  }

  function Commands(lines: seq<string>, nonce: string): (q: C.Queue) {
    if lines == [] then C.NoMore else C.Next(Classify(lines[0], nonce), Commands(lines[1..], nonce))
  }

  predicate HasStart(q: C.Queue) {
    q.Next? && (q.command.Start? || HasStart(q.rest))
  }

  /** How many bytes a read of at most `length` takes. */
  function Amount(p: ControlPipe, length: nat): (n: nat)
    requires p.taken <= |p.sent|
    ensures p.taken + n <= |p.sent| && n <= READ_LIMIT
  {
    var available := |p.sent| - p.taken;
    var wanted := if length < READ_LIMIT then length else READ_LIMIT;
    if wanted < available then wanted else available
  }

  /** The carried remainder and the next chunk. */
  ghost function Buffer(p: ControlPipe, length: nat): (text: string)
    requires p.taken <= |p.sent|
  {
    Rest(p.sent[..p.taken]) + p.sent[p.taken..p.taken + Amount(p, length)]
  }

  /** What the controller's read finds: the end once the writing side is closed and all was
      read, and otherwise the complete lines of its buffer. */
  ghost function Read(p: ControlPipe, nonce: string, length: nat): (input: C.Input)
    requires p.taken <= |p.sent|
  {
    if p.taken == |p.sent| then (if p.ended then C.Eof else C.Nothing)
    else if Amount(p, length) == 0 then C.Nothing
    else if |Buffer(p, length)| > BUFFER_LIMIT then C.Oversized
    else C.Received(Commands(Lines(Buffer(p, length)), nonce))
  }

  function AfterRead(p: ControlPipe, length: nat): (q: ControlPipe)
    requires p.taken <= |p.sent|
  {
    p.(taken := p.taken + Amount(p, length))
  }

  /** The start line is among the complete lines the controller has read. */
  ghost predicate Seen(p: ControlPipe, nonce: string) {
    p.taken <= |p.sent| && Asked(p.sent[..p.taken], nonce)
  }

  /** Only the parent's start writes the start line, and an open pipe holds whole lines. */
  ghost predicate Honest(p: ControlPipe, nonce: string) {
    && p.taken <= |p.sent|
    && (Asked(p.sent, nonce) ==> p.startWritten)
    && (!p.ended ==> Rest(p.sent) == "")
  }

  lemma {:induction false} CommandsStart(lines: seq<string>, nonce: string)
    ensures HasStart(Commands(lines, nonce)) <==> StartLine(nonce) in lines
    decreases |lines|
  {
    if lines != [] {
      CommandsStart(lines[1..], nonce);
    }
  }

  lemma Unused(nonce: string)
    ensures Honest(UNUSED, nonce)
  {
    NewlineAtUnique("", 0);
  }

  lemma OneMoreLine(text: string, line: string)
    requires Rest(text) == "" && '\n' !in line
    ensures Lines(text + (line + "\n")) == Lines(text) + [line] && Rest(text + (line + "\n")) == ""
  {
    FramingIsIncremental(text, line + "\n");
    ConcatEmpty(line + "\n");
    LineThenRest(line, "");
    NewlineAtUnique("", 0);
  }

  lemma PartialLine(text: string, partial: string)
    requires Rest(text) == "" && '\n' !in partial
    ensures Lines(text + partial) == Lines(text)
  {
    FramingIsIncremental(text, partial);
    ConcatEmpty(partial);
    NewlineAtUnique(partial, |partial|);
  }

  /** What was read stays read when more is written. */
  lemma PrefixStays(text: string, more: string, taken: nat)
    requires taken <= |text|
    ensures (text + more)[..taken] == text[..taken]
  {
  }

  lemma WriteKeeps(p: ControlPipe, line: string, nonce: string)
    requires Honest(p, nonce) && !p.ended && '\n' !in line
    ensures Honest(Write(p, line), nonce) || (line == StartLine(nonce) && !p.startWritten)
    ensures Honest(Write(p, line).(startWritten := true), nonce)
    ensures Seen(p, nonce) ==> Seen(Write(p, line), nonce)
  {
    OneMoreLine(p.sent, line);
    PrefixStays(p.sent, line + "\n", p.taken);
  }

  lemma BreakKeeps(p: ControlPipe, partial: string, nonce: string)
    requires Honest(p, nonce) && !p.ended && '\n' !in partial
    ensures Honest(Break(p, partial), nonce)
    ensures Seen(p, nonce) ==> Seen(Break(p, partial), nonce)
  {
    PartialLine(p.sent, partial);
    PrefixStays(p.sent, partial, p.taken);
  }

  lemma ReadAsks(p: ControlPipe, nonce: string, length: nat)
    requires p.taken <= |p.sent|
    ensures Seen(p, nonce) || Asked(Buffer(p, length), nonce) ==> Seen(AfterRead(p, length), nonce)
  {
    var chunk := p.sent[p.taken..p.taken + Amount(p, length)];
    assert p.sent[..p.taken] + chunk == p.sent[..p.taken + Amount(p, length)];
    AskedLater(p.sent[..p.taken], chunk, nonce);
  }

  /** A start among the commands of a read means that the start line was read. */
  lemma ReadKeeps(p: ControlPipe, nonce: string, length: nat)
    requires Honest(p, nonce)
    ensures Honest(AfterRead(p, length), nonce)
    ensures Seen(p, nonce) ==> Seen(AfterRead(p, length), nonce)
    ensures var input := Read(p, nonce, length);
            input.Received? && HasStart(input.commands) ==> Seen(AfterRead(p, length), nonce)
  {
    ReadAsks(p, nonce, length);
    CommandsStart(Lines(Buffer(p, length)), nonce);
  }

  /** What was read is part of what was written. */
  lemma SeenWasWritten(p: ControlPipe, nonce: string)
    requires Honest(p, nonce) && Seen(p, nonce)
    ensures p.startWritten
  {
    assert p.sent[..p.taken] + p.sent[p.taken..] == p.sent;
    AskedLater(p.sent[..p.taken], p.sent[p.taken..], nonce);
  }

  /** A line written to a fresh pipe arrives as the one command it is. */
  lemma CommandArrives(line: string, nonce: string)
    requires '\n' !in line && |line| < 4096
    ensures Read(Write(UNUSED, line), nonce, |line| + 1)
         == C.Received(C.Next(if line == "start:" + nonce then C.Start else if line == "stop:" + nonce then C.Stop else C.Garbage,
                              C.NoMore))
  {
    var p := Write(UNUSED, line);
    NewlineAtUnique("", 0);
    OneMoreLine("", line);
    ConcatEmpty(line + "\n");
    assert p.sent == line + "\n";
    assert p.sent[..0] == "" && p.sent[0..|line| + 1] == p.sent;
    assert Amount(p, |line| + 1) == |line| + 1;
    assert Buffer(p, |line| + 1) == line + "\n";
    assert Lines(line + "\n") == [] + [line] == [line];
    assert Commands([line], nonce) == C.Next(Classify(line, nonce), Commands([line][1..], nonce));
  }

  /** The end of a closed pipe and an oversized buffer are what they are, and nothing else. */
  lemma EndsExactlyWhen(p: ControlPipe, nonce: string, length: nat)
    requires p.taken <= |p.sent|
    ensures Read(p, nonce, length).Eof? <==> p.ended && p.taken == |p.sent|
    ensures Read(p, nonce, length).Oversized? <==>
              p.taken < |p.sent| && length > 0 && |Rest(p.sent[..p.taken])| + AfterRead(p, length).taken - p.taken > 8192
  {
  }
}
