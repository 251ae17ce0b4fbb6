/**
 The git archive cache (internal/git/archive.go:66-137, 167-183): requests for one
 ArchivePath share a directory. A miss copies the archive into a tempfile and
 publishes it under the cached name by link(2), but only after a clean end of file.
 */
module ArchiveCache {
  import opened Wrappers
  import opened Bytes

  type Name = string
  type Error = string

  // ---------------------------------------------------------------- commands

  /**
   What the commands of one archiveReader do: the chunks stdout delivers, then
   possibly a read error instead of the end of file, and what each Wait() returns.
   */
  datatype CommandRun = CommandRun(chunks: seq<Bytes>, fault: Option<Error>, waits: seq<Option<Error>>)

  function Output(run: CommandRun): Bytes {
    Concat(run.chunks)
  }

  function FirstError(waits: seq<Option<Error>>): Option<Error> {
    if waits == [] then None else if waits[0].Some? then waits[0] else FirstError(waits[1..])
  }

  /** What Read reports after the last chunk: None is io.EOF. */
  function ReadEnd(run: CommandRun): Option<Error> {
    if run.fault.Some? then run.fault else FirstError(run.waits)
  }

  /** No command and no read failed. */
  predicate Clean(run: CommandRun) {
    run.fault.None? && forall k :: 0 <= k < |run.waits| ==> run.waits[k].None?
  }

  lemma {:induction false} FirstErrorIs(waits: seq<Option<Error>>)
    ensures FirstError(waits).None? <==> forall k :: 0 <= k < |waits| ==> waits[k].None?
    ensures FirstError(waits).Some? ==>
              exists k :: 0 <= k < |waits| && waits[k] == FirstError(waits) && forall j :: 0 <= j < k ==> waits[j].None?
  {
    if waits != [] && waits[0].None? {
      FirstErrorIs(waits[1..]);
      if FirstError(waits).Some? {
        var k :| 0 <= k < |waits[1..]| && waits[1..][k] == FirstError(waits)
          && forall j :: 0 <= j < k ==> waits[1..][j].None?;
        assert forall j :: 0 < j <= k ==> waits[j] == waits[1..][j - 1];
        assert waits[k + 1] == FirstError(waits);
      } else {
        assert forall j :: 0 < j < |waits| ==> waits[j] == waits[1..][j - 1];
      }
    }
  }

  /** The reader ends cleanly exactly when nothing failed, whichever command it was. */
  lemma EndIsClean(run: CommandRun)
    ensures ReadEnd(run).None? <==> Clean(run)
  {
    FirstErrorIs(run.waits);
  }

  datatype ReadError = Eof | Failed(e: Error)

  class ArchiveReader {
    const waitCmds: seq<Option<Error>>
    const fault: Option<Error>
    var stdout: seq<Bytes>

    constructor (run: CommandRun)
      ensures waitCmds == run.waits && fault == run.fault && stdout == run.chunks
    {
      waitCmds, fault, stdout := run.waits, run.fault, run.chunks;
    }

    method Wait() returns (err: Option<Error>)
      ensures err == FirstError(waitCmds)
    {
      var waitErrors: seq<Option<Error>> := [];
      for i := 0 to |waitCmds|
        invariant waitErrors == waitCmds[..i]
      {
        waitErrors := waitErrors + [waitCmds[i]];
      }
      assert waitErrors == waitCmds;
      for i := 0 to |waitErrors|
        invariant FirstError(waitCmds) == FirstError(waitErrors[i..])
      {
        assert waitErrors[i..][1..] == waitErrors[i + 1..];
        if waitErrors[i].Some? {
          return waitErrors[i];
        }
      }
      return None;
    }

    method Read() returns (data: Bytes, err: Option<ReadError>)
      modifies this
      ensures old(stdout) != [] ==> data == old(stdout)[0] && err.None? && stdout == old(stdout)[1..]
      ensures old(stdout) == [] ==> data == [] && stdout == []
      ensures old(stdout) == [] ==>
                var end := ReadEnd(CommandRun([], fault, waitCmds));
                err == Some(if end.None? then Eof else Failed(end.value))
    {
      if stdout != [] {
        data, err := stdout[0], None;
        stdout := stdout[1..];
        return;
      }
      data := [];
      if fault.Some? {
        return data, Some(Failed(fault.value));
      }
      var e := Wait();
      err := if e.None? then Some(Eof) else Some(Failed(e.value));
    }
  }

  // -------------------------------------------------------------- file system

  /** A directory of names over immutable-numbered inodes. */
  datatype Disk = Disk(inodes: seq<Bytes>, names: map<Name, nat>)

  /** Every name denotes an inode. */
  predicate Sound(d: Disk) {
    forall n :: n in d.names ==> d.names[n] < |d.inodes|
  }

  /** Open with O_CREATE and O_EXCL. */
  function Create(d: Disk, name: Name): Disk {
    Disk(d.inodes + [[]], d.names[name := |d.inodes|])
  }

  function Append(d: Disk, ino: nat, data: Bytes): Disk
    requires ino < |d.inodes|
  {
    d.(inodes := d.inodes[ino := d.inodes[ino] + data])
  }

  datatype LinkResult = Linked | Exists | Missing

  function Link(d: Disk, from: Name, to: Name): (Disk, LinkResult) {
    if from !in d.names then (d, Missing)
    else if to in d.names then (d, Exists)
    else (d.(names := d.names[to := d.names[from]]), Linked)
  }

  /** link(2) never replaces: a link is made exactly if the name was free, and nothing else changes. */
  lemma LinkAddsOneName(d: Disk, from: Name, to: Name)
    ensures var (d', res) := Link(d, from, to);
            && d'.inodes == d.inodes
            && (res.Missing? <==> from !in d.names)
            && (res.Exists? <==> from in d.names && to in d.names)
            && (res.Linked? <==> from in d.names && to !in d.names)
            && d'.names - {to} == d.names - {to}
            && (!res.Linked? ==> d' == d)
            && (res.Linked? ==> to in d'.names && d'.names[to] == d.names[from])
  {
    var (d', res) := Link(d, from, to);
    assert res.Linked? ==> d'.names - {to} == d.names - {to};
  }

  function Remove(d: Disk, name: Name): Disk {
    d.(names := d.names - {name})
  }

  class FileSystem {
    var inodes: seq<Bytes>
    var names: map<Name, nat>

    ghost function Contents(): Disk
      reads this
    {
      Disk(inodes, names)
    }

    constructor ()
      ensures Contents() == Disk([], map[])
    {
      inodes, names := [], map[];
    }

    method OpenFile(name: Name) returns (ino: Option<nat>)
      ensures ino == if name in names then Some(names[name]) else None
    {
      ino := if name in names then Some(names[name]) else None;
    }

    method TempFile(name: Name) returns (ino: nat)
      requires name !in names
      modifies this
      ensures ino == old(|inodes|) && Contents() == Create(old(Contents()), name)
    {
      ino := |inodes|;
      inodes := inodes + [[]];
      names := names[name := ino];
    }

    method Write(ino: nat, data: Bytes, io: Fault) returns (n: nat, ok: bool)
      requires ino < |inodes|
      modifies this`inodes
      ensures n == |Passed(data, io)| && ok == io.Works?
      ensures Contents() == Append(old(Contents()), ino, Passed(data, io))
    {
      n, ok := |Passed(data, io)|, io.Works?;
      inodes := inodes[ino := inodes[ino] + Passed(data, io)];
    }

    method LinkFile(from: Name, to: Name) returns (res: LinkResult)
      modifies this`names
      ensures (Contents(), res) == Link(old(Contents()), from, to)
    {
      if from !in names {
        return Missing;
      }
      if to in names {
        return Exists;
      }
      names := names[to := names[from]];
      return Linked;
    }

    method RemoveFile(name: Name)
      modifies this`names
      ensures Contents() == Remove(old(Contents()), name)
    {
      names := names - {name};
    }
  }

  // ---------------------------------------------------- one request on its own

  /** What the outside world does to one request: tempfile writes and client writes, chunk by chunk. */
  datatype World = World(start: bool, temp: seq<Fault>, client: seq<Fault>, close: bool)

  predicate AllWork(faults: seq<Fault>) {
    forall k :: 0 <= k < |faults| ==> faults[k].Works?
  }

  /** Everything up to the end of the copy loop works. */
  predicate Copies(cacheEnabled: bool, run: CommandRun, world: World) {
    world.start && Clean(run) && (cacheEnabled ==> AllWork(world.temp)) && AllWork(world.client)
  }

  lemma NextChunk(chunks: seq<Bytes>, k: nat)
    requires k < |chunks|
    ensures Concat(chunks[..k + 1]) == Concat(chunks[..k]) + chunks[k]
  {
    ConcatAppend(chunks[..k], chunks[k]);
    assert chunks[..k + 1] == chunks[..k] + [chunks[k]];
  }

  /** io.Copy over the (tee'd) reader; the tempfile gets each chunk before the client does. */
  method Copy(fs: FileSystem, reader: ArchiveReader, cacheEnabled: bool, ino: nat, world: World, ghost run: CommandRun)
    returns (sent: Bytes, ok: bool)
    requires reader.waitCmds == run.waits && reader.fault == run.fault && reader.stdout == run.chunks
    requires |world.temp| == |run.chunks| == |world.client| && world.start
    requires cacheEnabled ==> ino < |fs.inodes| && fs.inodes[ino] == []
    modifies fs`inodes, reader
    ensures ok <==> Copies(cacheEnabled, run, world)
    ensures ok ==> sent == Output(run)
    ensures !cacheEnabled ==> fs.inodes == old(fs.inodes)
    ensures cacheEnabled ==> ino < |fs.inodes| && fs.inodes == old(fs.inodes)[ino := fs.inodes[ino]]
    ensures cacheEnabled && ok ==> fs.inodes[ino] == Output(run)
  {
    sent := [];
    var k := 0;
    EndIsClean(run);
    while true
      invariant k <= |run.chunks| && reader.stdout == run.chunks[k..]
      invariant sent == Concat(run.chunks[..k])
      invariant forall j :: 0 <= j < k ==> world.client[j].Works? && (cacheEnabled ==> world.temp[j].Works?)
      invariant !cacheEnabled ==> fs.inodes == old(fs.inodes)
      invariant cacheEnabled ==> ino < |fs.inodes| && fs.inodes == old(fs.inodes)[ino := Concat(run.chunks[..k])]
      decreases |run.chunks| - k
    {
      var data, err := reader.Read();
      if err.Some? {
        assert run.chunks[..k] == run.chunks;
        ok := err.value.Eof?;
        return;
      }
      var part, teeOk := data, true;
      if cacheEnabled {
        var n;
        n, teeOk := fs.Write(ino, data, world.temp[k]);
        part := data[..n];
      }
      sent := sent + Passed(part, world.client[k]);
      if !teeOk || !world.client[k].Works? {
        ok := false;
        return;
      }
      NextChunk(run.chunks, k);
      k := k + 1;
    }
  }

  /**
   The whole request when no other is under way. A hit serves the file; a miss
   changes the directory only by publishing a complete archive.
   */
  method Inject(fs: FileSystem, cacheEnabled: bool, archivePath: Name, tempName: Name, run: CommandRun, world: World)
    returns (sent: Bytes, hit: bool)
    requires Sound(fs.Contents()) && tempName !in fs.names && tempName != archivePath
    requires |world.temp| == |run.chunks| == |world.client|
    modifies fs
    ensures hit == (cacheEnabled && archivePath in old(fs.names))
    ensures hit ==> fs.Contents() == old(fs.Contents()) && sent == fs.inodes[fs.names[archivePath]]
    ensures !hit && Copies(cacheEnabled, run, world) ==> sent == Output(run)
    ensures !hit && cacheEnabled && Copies(true, run, world) && world.close ==>
              fs.Contents() == Disk(old(fs.inodes) + [Output(run)], old(fs.names)[archivePath := old(|fs.inodes|)])
    ensures !(cacheEnabled && Copies(true, run, world) && world.close) ==>
              fs.names == old(fs.names) && old(fs.inodes) <= fs.inodes
    ensures Sound(fs.Contents())
  {
    hit := false;
    if cacheEnabled {
      var cached := fs.OpenFile(archivePath);
      if cached.Some? {
        return fs.inodes[cached.value], true;
      }
    }
    var ino := 0;
    if cacheEnabled {
      ino := fs.TempFile(tempName);
    }
    sent := [];
    var ok := false;
    if world.start {
      var reader := new ArchiveReader(run);
      sent, ok := Copy(fs, reader, cacheEnabled, ino, world, run);
    }
    if cacheEnabled {
      if ok && world.close {
        var res := fs.LinkFile(tempName, archivePath);
      }
      fs.RemoveFile(tempName);
    }
  }
}
