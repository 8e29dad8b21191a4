/** Newline framing of a byte stream that arrives in arbitrary chunks: the text is
    ASCII, so one character is one byte. */
module LineFraming {

  /** `at` is the offset of the first newline, or the length when there is none. */
  ghost predicate FirstNewline(s: string, at: nat) {
    && at <= |s|
    && (forall k | 0 <= k < at :: s[k] != '\n')
    && (at < |s| ==> s[at] == '\n')
  }

  lemma FirstNewlineExists(s: string)
    ensures exists at :: FirstNewline(s, at)
  {
    var at := 0;
    while at < |s| && s[at] != '\n'
      invariant at <= |s|
      invariant forall k | 0 <= k < at :: s[k] != '\n'
    {
      at := at + 1;
    }
    assert FirstNewline(s, at);
  }

  ghost function NewlineAt(s: string): (at: nat)
    ensures FirstNewline(s, at)
  {
    FirstNewlineExists(s);
    var at :| FirstNewline(s, at);
    at
  }

  method IndexOfNewline(s: string) returns (at: nat)
    ensures at == NewlineAt(s)
  {
    at := 0;
    while at < |s| && s[at] != '\n'
      invariant at <= |s|
      invariant forall k | 0 <= k < at :: s[k] != '\n'
    {
      at := at + 1;
    }
    NewlineAtUnique(s, at);
  }

  /** The complete lines of a stream, without their newlines. */
  ghost function Lines(s: string): (lines: seq<string>)
    decreases |s|
  {
    var at := NewlineAt(s);
    if at == |s| then [] else [s[..at]] + Lines(s[at + 1..])
  }

  /** What follows the last newline. */
  ghost function Rest(s: string): (rest: string)
    decreases |s|
  {
    var at := NewlineAt(s);
    if at == |s| then s else Rest(s[at + 1..])
  }

  lemma {:induction false} RestHasNoNewline(text: string)
    ensures '\n' !in Rest(text)
    decreases |text|
  {
    var at := NewlineAt(text);
    if at < |text| {
      RestHasNoNewline(text[at + 1..]);
    }
  }

  lemma {:induction false} RestIsShort(text: string)
    ensures |Rest(text)| <= |text|
    decreases |text|
  {
    var at := NewlineAt(text);
    if at < |text| {
      RestIsShort(text[at + 1..]);
    }
  }

  lemma ConcatAssociates(a: string, b: string, c: string)
    ensures a + b + c == a + (b + c)
  {
  }

  lemma ConcatEmpty(a: string)
    ensures a + "" == a && "" + a == a
  {
  }

  lemma NewlineAtUnique(s: string, at: nat)
    requires FirstNewline(s, at)
    ensures NewlineAt(s) == at
  {
  }

  /** Framing is incremental: reading `a` and then `b` yields the lines of `a`
      followed by the lines of the carried remainder and `b`. */
  lemma {:induction false} FramingIsIncremental(a: string, b: string)
    ensures Lines(a + b) == Lines(a) + Lines(Rest(a) + b)
    ensures Rest(a + b) == Rest(Rest(a) + b)
    decreases |a|
  {
    var at := NewlineAt(a);
    if at < |a| {
      NewlineAtUnique(a + b, at);
      assert (a + b)[..at] == a[..at];
      assert (a + b)[at + 1..] == a[at + 1..] + b;
      FramingIsIncremental(a[at + 1..], b);
    }
  }

  /** A text without a newline, followed by one, frames to exactly that text. */
  lemma LineThenRest(line: string, more: string)
    requires '\n' !in line
    ensures Lines(line + "\n" + more) == [line] + Lines(more)
    ensures Rest(line + "\n" + more) == Rest(more)
  {
    var s := line + "\n" + more;
    NewlineAtUnique(s, |line|);
    assert s[..|line|] == line;
    assert s[|line| + 1..] == more;
  }
}
