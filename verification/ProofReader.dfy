/** The bounded sidecar reader, run beside a mutator that may write, truncate, rename or
    unlink between any two system calls. Every change of a file raises its change time. */
module ProofReader {
  import opened Wrappers
  import opened Sequences

  const LIMIT: nat := 32768

  datatype Kind = Regular | SymbolicLink | OtherKind

  /** An inode as `stat` and `read` see it; the size is that of the content. */
  datatype Inode = Inode(kind: Kind, links: nat, mtime: int, ctime: int, content: seq<byte>)

  /** One inode at two moments: the change time never falls, and while it stands still
      nothing changed. */
  ghost predicate Evolved(before: Inode, after: Inode) {
    before.ctime <= after.ctime && (before.ctime == after.ctime ==> before == after)
  }

  /** An inode with equal change times at both ends was the same at every moment between. */
  lemma UnchangedBetween(before: Inode, between: Inode, after: Inode)
    requires Evolved(before, between) && Evolved(between, after)
    ensures Evolved(before, after)
    ensures before.ctime == after.ctime ==> between == before == after
  {
  }

  /** Directory and inode table at one moment. */
  datatype Moment = Moment(names: map<string, nat>, inodes: map<nat, Inode>)

  /** From moment `from` on the inode was never gone, and it evolved up to the last moment. */
  ghost predicate Since(history: seq<Moment>, from: nat, ino: nat)
    requires from < |history|
  {
    forall k | from <= k < |history| ::
      && ino in history[from].inodes && ino in history[k].inodes && ino in history[|history| - 1].inodes
      && Evolved(history[from].inodes[ino], history[k].inodes[ino])
      && Evolved(history[k].inodes[ino], history[|history| - 1].inodes[ino])
  }

  lemma SinceContinues(history: seq<Moment>, next: Moment, from: nat, ino: nat)
    requires from < |history| && Since(history, from, ino)
    requires ino in next.inodes && Evolved(history[|history| - 1].inodes[ino], next.inodes[ino])
    ensures Since(history + [next], from, ino)
  {
    var longer := history + [next];
    forall k | from <= k < |longer|
      ensures ino in longer[k].inodes && Evolved(longer[from].inodes[ino], longer[k].inodes[ino])
              && Evolved(longer[k].inodes[ino], next.inodes[ino])
    {
      if k < |history| {
        UnchangedBetween(history[k].inodes[ino], history[|history| - 1].inodes[ino], next.inodes[ino]);
      } else {
        UnchangedBetween(history[from].inodes[ino], history[|history| - 1].inodes[ino], next.inodes[ino]);
      }
    }
  }

  /** The file system with its mutator; `held` is the inode an open descriptor keeps alive
      and `position` where its next read begins; `history` holds every moment so far, the
      present one last. */
  class FileSystem {
    var names: map<string, nat>
    var inodes: map<nat, Inode>
    var held: Option<nat>
    var position: nat
    ghost var history: seq<Moment>

    ghost predicate Valid()
      reads this
    {
      && (forall path | path in names :: names[path] in inodes)
      && (held.Some? ==> held.value in inodes)
      && history != [] && history[|history| - 1] == Moment(names, inodes)
    }

    /** Whatever the mutator does between two calls of the reader. */
    method Interfere()
      requires Valid()
      modifies this`names, this`inodes, this`history
      ensures Valid()
      ensures history == old(history) + [Moment(names, inodes)]
      ensures forall i | i in old(inodes) && i in inodes :: Evolved(old(inodes)[i], inodes[i])
    {
      var newNames: map<string, nat> := *;
      var newInodes: map<nat, Inode> := *;
      if && (forall path | path in newNames :: newNames[path] in newInodes)
         && (held.Some? ==> held.value in newInodes)
         && (forall i | i in inodes && i in newInodes ::
               inodes[i].ctime <= newInodes[i].ctime && (inodes[i].ctime == newInodes[i].ctime ==> inodes[i] == newInodes[i]))
      {
        names, inodes := newNames, newInodes;
      }
      history := history + [Moment(names, inodes)];
    }

    /** `lstat` of a name. */
    method Stat(path: string) returns (r: Option<nat>)
      requires Valid()
      ensures r.Some? <==> path in names
      ensures r.Some? ==> r.value == names[path] && r.value in inodes
    {
      r := if path in names then Some(names[path]) else None;
    }

    /** `open` without following a symbolic link. */
    method Open(path: string) returns (r: Option<nat>)
      requires Valid()
      modifies this`held, this`position
      ensures Valid() && held == r && position == 0
      ensures r.None? <==> path !in names || inodes[names[path]].kind.SymbolicLink?
      ensures r.Some? ==> r.value == names[path]
    {
      position := 0;
      held := if path in names && !inodes[names[path]].kind.SymbolicLink? then Some(names[path]) else None;
      r := held;
    }

    /** A read at the file position, into the buffer at `offset`: zero bytes only at the end of
        the file, otherwise any positive number that fits; the position moves on. */
    method ReadSync(buffer: array<byte>, offset: nat) returns (n: nat)
      requires Valid() && held.Some? && offset < buffer.Length
      modifies buffer, this`position
      ensures Valid() && position == old(position) + n && offset + n <= buffer.Length
      ensures var content := inodes[held.value].content;
              && (n == 0 <==> old(position) >= |content|)
              && (n > 0 ==> position <= |content| && buffer[offset..offset + n] == content[old(position)..position])
      ensures buffer[..offset] == old(buffer[..offset])
    {
      var content := inodes[held.value].content;
      if position >= |content| {
        return 0;
      }
      var left, room := |content| - position, buffer.Length - offset;
      n :| 0 < n <= left && n <= room;
      for k := 0 to n
        invariant position == old(position)
        invariant buffer[offset..offset + k] == content[position..position + k]
        invariant buffer[..offset] == old(buffer[..offset])
      {
        buffer[offset + k] := content[position + k];
      }
      position := position + n;
    }
  }

  /** The read loop with its short reads, from the moment `from` at which the descriptor was
      examined: if the inode is still the same, the bytes read are its content, up to the
      size of the buffer. */
  method ReadAll(fs: FileSystem, ino: nat, ghost from: nat, bytes: array<byte>) returns (length: nat)
    requires fs.Valid() && fs.held == Some(ino) && fs.position == 0
    requires from < |fs.history| && Since(fs.history, from, ino)
    modifies fs`names, fs`inodes, fs`history, fs`position, bytes
    ensures fs.Valid() && fs.held == Some(ino) && length <= bytes.Length
    ensures old(fs.history) <= fs.history && Since(fs.history, from, ino)
    ensures var atOpen := old(fs.history)[from].inodes[ino];
            fs.inodes[ino].ctime == atOpen.ctime ==>
              && length == (if |atOpen.content| < bytes.Length then |atOpen.content| else bytes.Length)
              && bytes[..length] == atOpen.content[..length]
  {
    length := 0;
    ghost var atOpen := fs.history[from].inodes[ino];
    while length < bytes.Length
      invariant fs.Valid() && fs.held == Some(ino) && fs.position == length <= bytes.Length
      invariant old(fs.history) <= fs.history && Since(fs.history, from, ino)
      invariant fs.inodes[ino].ctime == atOpen.ctime ==>
                  length <= |atOpen.content| && bytes[..length] == atOpen.content[..length]
      decreases bytes.Length - length
    {
      FollowedBy(fs, from, ino);
      var n := fs.ReadSync(bytes, length);
      if n == 0 {
        break;
      }
      if fs.inodes[ino].ctime == atOpen.ctime {
        ReadExtends(bytes[..], atOpen.content, length, n);
      }
      length := length + n;
    }
  }

  /** The mutator acts; the inode that is held stays followed. */
  method FollowedBy(fs: FileSystem, ghost from: nat, ino: nat)
    requires fs.Valid() && fs.held == Some(ino) && from < |fs.history| && Since(fs.history, from, ino)
    modifies fs`names, fs`inodes, fs`history
    ensures fs.Valid() && fs.history == old(fs.history) + [Moment(fs.names, fs.inodes)]
    ensures Since(fs.history, from, ino)
    ensures Evolved(old(fs.inodes)[ino], fs.inodes[ino])
    ensures Evolved(fs.history[from].inodes[ino], fs.inodes[ino])
  {
    fs.Interfere();
    SinceContinues(old(fs.history), Moment(fs.names, fs.inodes), from, ino);
  }

  datatype Refusal = Absent | Unacceptable | NotOpened | OtherInode | Changed

  predicate Acceptable(inode: Inode) {
    inode.kind.Regular? && inode.links == 1 && 0 < |inode.content| <= LIMIT
  }

  /** At moment `k` the name led to the inode. */
  ghost predicate LedTo(history: seq<Moment>, k: nat, path: string, ino: nat) {
    k < |history| && path in history[k].names && history[k].names[path] == ino && ino in history[k].inodes
  }

  /** At moment `k` the name led nowhere, or to a symbolic link. */
  ghost predicate Unopenable(history: seq<Moment>, k: nat, path: string) {
    && k < |history|
    && (path in history[k].names ==>
        history[k].names[path] in history[k].inodes && history[k].inodes[history[k].names[path]].kind.SymbolicLink?)
  }

  /** What was opened after moment `first` was another inode, or no longer a regular file. */
  ghost predicate Exchanged(history: seq<Moment>, first: nat, path: string, ino: nat) {
    && first + 2 < |history| && path in history[first + 1].names
    && (history[first + 1].names[path] != ino
        || (ino in history[first + 2].inodes && !history[first + 2].inodes[ino].kind.Regular?))
  }

  /** The checks before the first byte is read: the `lstat` at moment `first`, the `open` at
      the next one and the descriptor's `fstat` at the one after that. */
  method OpenRegular(fs: FileSystem, path: string)
    returns (ino: nat, refusal: Option<Refusal>, ghost first: nat)
    requires fs.Valid()
    modifies fs
    ensures fs.Valid() && old(fs.history) <= fs.history
    ensures |old(fs.history)| <= first < |fs.history|
    ensures refusal.None? ==>
              && fs.held == Some(ino) && fs.position == 0 && fs.inodes[ino].kind.Regular?
              && first + 2 == |fs.history| - 1
              && LedTo(fs.history, first, path, ino) && Acceptable(fs.history[first].inodes[ino])
              && LedTo(fs.history, first + 1, path, ino)
    ensures refusal == Some(Absent) <==> path !in fs.history[first].names
    ensures refusal == Some(Unacceptable) <==>
              LedTo(fs.history, first, path, ino) && !Acceptable(fs.history[first].inodes[ino])
    ensures refusal == Some(NotOpened) ==> Unopenable(fs.history, first + 1, path)
    ensures refusal == Some(OtherInode) ==>
              LedTo(fs.history, first, path, ino) && Exchanged(fs.history, first, path, ino)
    ensures refusal != Some(Changed)
  {
    ino, refusal := 0, None;
    fs.Interfere();
    first := |fs.history| - 1;
    var original := fs.Stat(path);
    if original.None? {
      refusal := Some(Absent);
      return;
    }
    ino := original.value;
    var seen := fs.inodes[ino];
    if !seen.kind.Regular? || seen.links != 1 || |seen.content| == 0 || |seen.content| > LIMIT {
      refusal := Some(Unacceptable);
      return;
    }
    fs.Interfere();
    var fd := fs.Open(path);
    if fd.None? {
      refusal := Some(NotOpened);
      return;
    }
    fs.Interfere();
    if !fs.inodes[fd.value].kind.Regular? || fd.value != ino {
      refusal := Some(OtherInode);
    }
  }

  /** From moment `from` to moment `to` the inode never changed, and `bytes` is its whole
      content. */
  ghost predicate Snapshot(history: seq<Moment>, from: nat, to: nat, ino: nat, bytes: seq<byte>) {
    && from <= to < |history|
    && 0 < |bytes| <= LIMIT
    && forall k | from <= k <= to ::
         && ino in history[from].inodes && ino in history[k].inodes
         && history[k].inodes[ino] == history[from].inodes[ino]
         && history[k].inodes[ino].content == bytes && history[k].inodes[ino].kind.Regular?
  }

  /** Between two moments the inode changed, or at the last moment the name did not lead to
      it or it had become a symbolic link. */
  ghost predicate Disturbed(history: seq<Moment>, first: nat, path: string, ino: nat) {
    && first < |history|
    && ((exists k | first < k < |history| ::
           && ino in history[first].inodes && ino in history[k].inodes
           && history[k].inodes[ino] != history[first].inodes[ino])
        || !LedTo(history, |history| - 1, path, ino))
  }

  lemma ChangeShows(history: seq<Moment>, first: nat, from: nat, to: nat, path: string, ino: nat)
    requires first < from <= to < |history| - 1 && LedTo(history, first, path, ino)
    requires ino in history[from].inodes && ino in history[to].inodes
    requires || history[from].inodes[ino] != history[first].inodes[ino]
             || history[to].inodes[ino] != history[first].inodes[ino]
             || !LedTo(history, |history| - 1, path, ino)
             || history[|history| - 1].inodes[ino] != history[first].inodes[ino]
    ensures Disturbed(history, first, path, ino)
  {
    if LedTo(history, |history| - 1, path, ino) {
      var k := if history[from].inodes[ino] != history[first].inodes[ino] then from
               else if history[to].inodes[ino] != history[first].inodes[ino] then to else |history| - 1;
      assert history[k].inodes[ino] != history[first].inodes[ino];
    }
  }

  /** The rest of the call once the descriptor was examined, at moment `from`. */
  method ReadOpened(fs: FileSystem, path: string, ino: nat, ghost first: nat, ghost from: nat)
    returns (r: Result<seq<byte>, Refusal>, ghost to: nat)
    requires fs.Valid() && fs.held == Some(ino) && fs.position == 0 && fs.inodes[ino].kind.Regular?
    requires first < from == |fs.history| - 1
    requires LedTo(fs.history, first, path, ino) && Acceptable(fs.history[first].inodes[ino])
    modifies fs
    ensures fs.Valid() && old(fs.history) <= fs.history
    ensures r.Ok? ==>
              && from < to < |fs.history| - 1
              && Snapshot(fs.history, from, to, ino, r.value)
              && LedTo(fs.history, |fs.history| - 1, path, ino)
    ensures r.Err? ==> r.error == Changed && Disturbed(fs.history, first, path, ino)
  {
    var atOpen := fs.inodes[ino];
    var bytes := new byte[LIMIT + 1];
    var length := ReadAll(fs, ino, from, bytes);
    FollowedBy(fs, from, ino);
    to := |fs.history| - 1;
    var atEnd := fs.inodes[ino];
    fs.Interfere();
    var current := fs.Stat(path);
    if && 0 < length <= LIMIT && length == |atOpen.content|
       && |atEnd.content| == |atOpen.content| && atEnd.mtime == atOpen.mtime && atEnd.ctime == atOpen.ctime
       && current == Some(ino) && !fs.inodes[ino].kind.SymbolicLink?
    {
      return Ok(bytes[..length]), to;
    }
    ChangeShows(fs.history, first, from, to, path, ino);
    return Err(Changed), to;
  }

  /** What the first `lstat` must find: a regular file, known by one name only, of 1 to 32768
      bytes. */
  lemma AcceptableExactlyWhen(inode: Inode)
    ensures Acceptable(inode) <==> inode.kind == Regular && inode.links == 1 && 1 <= |inode.content| <= 32768
  {
  }

  /** Whatever the mutator does, an accepted result is the whole content the inode had at
      every moment from the first `fstat` of the descriptor to the last one, all of them
      during this call; the name led to that inode before, at the `open` and after. The
      reader refuses only for a fact of one of those moments. */
  method ReadProof(fs: FileSystem, path: string)
    returns (r: Result<seq<byte>, Refusal>, ghost ino: nat, ghost first: nat, ghost from: nat, ghost to: nat)
    requires fs.Valid()
    modifies fs
    ensures fs.Valid() && old(fs.history) <= fs.history && |old(fs.history)| <= first < |fs.history|
    ensures r.Ok? ==>
              && first + 2 == from < to < |fs.history| - 1
              && Snapshot(fs.history, from, to, ino, r.value) && 1 <= |r.value| <= 32768
              && LedTo(fs.history, first, path, ino) && fs.history[first].inodes[ino].links == 1
              && LedTo(fs.history, first + 1, path, ino)
              && LedTo(fs.history, |fs.history| - 1, path, ino)
    ensures r == Err(Absent) <==> path !in fs.history[first].names
    ensures r == Err(Unacceptable) <==>
              LedTo(fs.history, first, path, ino) && !Acceptable(fs.history[first].inodes[ino])
    ensures r == Err(NotOpened) ==> Unopenable(fs.history, first + 1, path)
    ensures r == Err(OtherInode) ==>
              LedTo(fs.history, first, path, ino) && Exchanged(fs.history, first, path, ino)
    ensures r == Err(Changed) ==>
              LedTo(fs.history, first, path, ino) && Disturbed(fs.history, first, path, ino)
  {
    var inode, refusal;
    inode, refusal, first := OpenRegular(fs, path);
    ino, from, to := inode, |fs.history| - 1, |fs.history| - 1;
    if refusal.Some? {
      return Err(refusal.value), ino, first, from, to;
    }
    r, to := ReadOpened(fs, path, inode, first, from);
  }

  /** A read that extends a prefix of the content by the next bytes of it. */
  lemma ReadExtends(buffer: seq<byte>, content: seq<byte>, length: nat, n: nat)
    requires length + n <= |buffer| && length + n <= |content|
    requires buffer[..length] == content[..length]
    requires buffer[length..length + n] == content[length..length + n]
    ensures buffer[..length + n] == content[..length + n]
  {
    assert buffer[..length + n] == buffer[..length] + buffer[length..length + n];
    assert content[..length + n] == content[..length] + content[length..length + n];
  }
}
