/**
 writeFileAtomic on a model of the filesystem: a directory of names and the inodes behind them. Every
 system call leaves a snapshot, so that a reader or a crash at any step is covered.
 */
module AtomicWrite {
  import opened Text

  /** `durable`: the whole content has been synced. */
  datatype Inode = Inode(content: string, mode: int, durable: bool)

  datatype Disk = Disk(directory: map<string, nat>, inodes: map<nat, Inode>, nextInode: nat)

  ghost predicate WellFormed(d: Disk) {
    && (forall q | q in d.directory :: d.directory[q] in d.inodes)
    && (forall i | i in d.inodes :: i < d.nextInode)
  }

  datatype WriteOutcome = Interrupted | Failed | Wrote(count: nat)

  class FileSystem {
    var disk: Disk
    var history: seq<Disk>
    var patience: nat                // how often a write may still be interrupted by a signal
    const unlinkWorks: bool

    ghost predicate Valid()
      reads this
    {
      WellFormed(disk) && history != [] && history[|history| - 1] == disk
    }

    constructor (initial: Disk, patience: nat, unlinkWorks: bool)
      requires WellFormed(initial)
      ensures Valid() && disk == initial && this.unlinkWorks == unlinkWorks
    {
      disk, history, this.patience, this.unlinkWorks := initial, [initial], patience, unlinkWorks;
    }

    method Become(next: Disk)
      requires Valid() && WellFormed(next)
      modifies this`disk, this`history
      ensures Valid() && disk == next && history == old(history) + [next]
    {
      disk := next;
      history := history + [next];
    }

    /** open(O_CREAT | O_EXCL): the creation mode is subject to the umask. */
    method CreateExclusive(path: string) returns (created: bool, inode: nat)
      requires Valid()
      modifies this`disk, this`history
      ensures Valid()
      ensures created ==> path !in old(disk).directory && inode == old(disk).nextInode
      ensures created ==> exists mode :: disk == WithNewFile(old(disk), path, mode)
      ensures !created ==> disk == old(disk)
      ensures history == old(history) + [disk]
    {
      var fault: bool, mode: int := *, *;
      inode := disk.nextInode;
      created := !fault && path !in disk.directory;
      if created {
        Become(WithNewFile(disk, path, mode));
      } else {
        Become(disk);
      }
    }

    method Update(inode: nat, next: Inode)
      requires Valid() && inode in disk.inodes
      modifies this`disk, this`history
      ensures Valid() && disk == WithInode(old(disk), inode, next) && history == old(history) + [disk]
    {
      Become(WithInode(disk, inode, next));
    }

    method Fchmod(inode: nat, mode: int) returns (ok: bool)
      requires Valid() && inode in disk.inodes
      modifies this`disk, this`history
      ensures Valid() && history == old(history) + [disk]
      ensures disk == if ok then WithInode(old(disk), inode, old(disk).inodes[inode].(mode := mode)) else old(disk)
    {
      ok := *;
      Update(inode, if ok then disk.inodes[inode].(mode := mode) else disk.inodes[inode]);
      assert !ok ==> disk == old(disk);
    }

    /** write(): any number of bytes from the front of `data`, or an error. */
    method Write(inode: nat, data: string) returns (outcome: WriteOutcome)
      requires Valid() && inode in disk.inodes
      modifies this
      ensures Valid() && history == old(history) + [disk]
      ensures outcome.Interrupted? ==> disk == old(disk) && patience < old(patience)
      ensures !outcome.Interrupted? ==> patience == old(patience)
      ensures outcome.Failed? ==> disk == old(disk)
      ensures outcome.Wrote? ==>
        && outcome.count <= |data|
        && var before := old(disk).inodes[inode];
           disk == WithInode(old(disk), inode,
                             before.(content := before.content + data[..outcome.count], durable := false))
    {
      var choice: int, count: nat := *, *;
      if choice == 0 && patience > 0 {
        patience := patience - 1;
        Become(disk);
        return Interrupted;
      }
      if choice == 1 || count > |data| {
        Become(disk);
        return Failed;
      }
      var before := disk.inodes[inode];
      Update(inode, before.(content := before.content + data[..count], durable := false));
      outcome := Wrote(count);
    }

    method Fsync(inode: nat) returns (ok: bool)
      requires Valid() && inode in disk.inodes
      modifies this`disk, this`history
      ensures Valid() && history == old(history) + [disk]
      ensures disk == if ok then WithInode(old(disk), inode, old(disk).inodes[inode].(durable := true)) else old(disk)
    {
      ok := *;
      Update(inode, if ok then disk.inodes[inode].(durable := true) else disk.inodes[inode]);
      assert !ok ==> disk == old(disk);
    }

    method Unlink(path: string)
      requires Valid()
      modifies this`disk, this`history
      ensures Valid() && history == old(history) + [disk]
      ensures disk == old(disk) || disk == old(disk).(directory := old(disk).directory - {path})
      ensures unlinkWorks ==> disk == old(disk).(directory := old(disk).directory - {path})
    {
      var fault: bool := *;
      if fault && !unlinkWorks {
        Become(disk);
      } else {
        Become(disk.(directory := disk.directory - {path}));
      }
    }

    /** rename(): the name moves in one step, whatever it named before. */
    method Rename(source: string, target: string) returns (ok: bool)
      requires Valid() && source in disk.directory
      modifies this`disk, this`history
      ensures Valid() && history == old(history) + [disk]
      ensures disk == if ok then old(disk).(directory := old(disk).directory[target := old(disk).directory[source]] - {source})
                      else old(disk)
    {
      ok := *;
      if ok {
        Become(disk.(directory := disk.directory[target := disk.directory[source]] - {source}));
      } else {
        Become(disk);
      }
    }
  }

  function WithNewFile(d: Disk, path: string, mode: int): Disk {
    Disk(d.directory[path := d.nextInode], d.inodes[d.nextInode := Inode("", mode, false)], d.nextInode + 1)
  }

  function WithInode(d: Disk, inode: nat, next: Inode): Disk { d.(inodes := d.inodes[inode := next]) }

  /** The random suffix keeps the temporary name apart from the target. */
  function TemporaryName(path: string, random: nat): (name: string)
    ensures name != path
  {
    var name := path + ".tmp." + Show(random);
    assert |name| > |path|;
    name
  }

  // ----- what every snapshot shows

  /** All files that were there before are as they were; only the temporary name may have come or gone. */
  ghost predicate OldFilesKept(d0: Disk, d: Disk, path: string, temporary: string) {
    && (forall q | q != path && q != temporary :: (q in d.directory <==> q in d0.directory)
          && (q in d0.directory ==> d.directory[q] == d0.directory[q]))
    && (forall i | i in d0.inodes :: i in d.inodes && d.inodes[i] == d0.inodes[i])
  }

  ghost predicate TargetKept(d0: Disk, d: Disk, path: string) {
    (path in d.directory <==> path in d0.directory) && (path in d0.directory ==> d.directory[path] == d0.directory[path])
  }

  /** The target is a new file with the whole content and the mode asked for, safe on disk. */
  ghost predicate InPlace(d0: Disk, d: Disk, path: string, contents: string, mode: int) {
    && path in d.directory && d.directory[path] !in d0.inodes && d.directory[path] in d.inodes
    && d.inodes[d.directory[path]] == Inode(contents, mode, true)
  }

  /** Every snapshot from `from` on shows the old target, except that the last one of a success shows the new one. */
  ghost predicate OldThenNew(d0: Disk, shots: seq<Disk>, from: nat, path: string, temporary: string, ok: bool) {
    forall k | from <= k < |shots| ::
      OldFilesKept(d0, shots[k], path, temporary) && (TargetKept(d0, shots[k], path) || (ok && k == |shots| - 1))
  }

  /** The descriptor is open on the temporary file, which holds the first `done` characters. */
  ghost predicate Writing(d0: Disk, d: Disk, path: string, temporary: string, inode: nat, content: string) {
    && OldFilesKept(d0, d, path, temporary) && TargetKept(d0, d, path)
    && inode !in d0.inodes && inode in d.inodes && d.inodes[inode].content == content
    && temporary !in d0.directory && temporary in d.directory && d.directory[temporary] == inode
  }

  /** The run so far: `from` snapshots ago it started on d0, and no snapshot since shows a change of the target. */
  ghost predicate Underway(
    fs: FileSystem, d0: Disk, from: nat, path: string, temporary: string, inode: nat, content: string)
    reads fs
  {
    && fs.Valid() && path != temporary && from <= |fs.history|
    && Writing(d0, fs.disk, path, temporary, inode, content)
    && OldThenNew(d0, fs.history, from, path, temporary, false)
  }

  method Abandon(fs: FileSystem, ghost d0: Disk, ghost from: nat, path: string, temporary: string,
                 ghost inode: nat, ghost content: string)
    requires Underway(fs, d0, from, path, temporary, inode, content)
    modifies fs
    ensures fs.Valid() && old(fs.history) <= fs.history
    ensures OldThenNew(d0, fs.history, from, path, temporary, false)
    ensures TargetKept(d0, fs.disk, path)
    ensures fs.unlinkWorks ==> fs.disk.directory == d0.directory
  {
    fs.Unlink(temporary);
    if fs.unlinkWorks {
      assert forall q :: q in fs.disk.directory <==> q in d0.directory;
    }
  }

  method WriteSome(fs: FileSystem, ghost d0: Disk, ghost from: nat, path: string, temporary: string, inode: nat,
                   data: string, ghost written: string)
    returns (outcome: WriteOutcome)
    requires Underway(fs, d0, from, path, temporary, inode, written)
    modifies fs
    ensures old(fs.history) <= fs.history && fs.disk.inodes.Keys == old(fs.disk).inodes.Keys
    ensures outcome.Wrote? ==> outcome.count <= |data|
    ensures Underway(fs, d0, from, path, temporary, inode,
                     written + if outcome.Wrote? then data[..outcome.count] else "")
    ensures fs.disk.inodes[inode].mode == old(fs.disk).inodes[inode].mode
    ensures if outcome.Interrupted? then fs.patience < old(fs.patience) else fs.patience == old(fs.patience)
  {
    outcome := fs.Write(inode, data);
    assert written + "" == written;
  }

  /** The write loop: short writes and interruptions are retried, anything else fails. */
  method WriteAll(fs: FileSystem, ghost d0: Disk, ghost from: nat, path: string, temporary: string, inode: nat, contents: string)
    returns (ok: bool, ghost written: string)
    requires Underway(fs, d0, from, path, temporary, inode, "")
    modifies fs
    ensures old(fs.history) <= fs.history
    ensures Underway(fs, d0, from, path, temporary, inode, written) && (ok ==> written == contents)
    ensures fs.disk.inodes[inode].mode == old(fs.disk).inodes[inode].mode
  {
    var data := contents;
    written := "";
    while |data| > 0
      invariant old(fs.history) <= fs.history
      invariant Underway(fs, d0, from, path, temporary, inode, written) && written + data == contents
      invariant fs.disk.inodes[inode].mode == old(fs.disk).inodes[inode].mode
      decreases |data| + fs.patience
    {
      var outcome := WriteSome(fs, d0, from, path, temporary, inode, data, written);
      match outcome {
        case Interrupted =>
          written := written + "";
        case Failed =>
          return false, written + "";
        case Wrote(count) =>
          written := written + data[..count];
          if count == 0 {
            return false, written;
          }
          data := data[count..];
      }
    }
    ok := true;
  }

  /** fsync, close and rename. */
  method Publish(fs: FileSystem, ghost d0: Disk, ghost from: nat, path: string, temporary: string, inode: nat,
                 ghost contents: string)
    returns (ok: bool)
    requires Underway(fs, d0, from, path, temporary, inode, contents)
    modifies fs
    ensures fs.Valid() && old(fs.history) <= fs.history
    ensures OldThenNew(d0, fs.history, from, path, temporary, ok)
    ensures ok ==> from < |fs.history| && InPlace(d0, fs.disk, path, contents, old(fs.disk).inodes[inode].mode)
    ensures !ok ==> TargetKept(d0, fs.disk, path)
    ensures ok || fs.unlinkWorks ==> fs.disk.directory.Keys == d0.directory.Keys + if ok then {path} else {}
  {
    var synced := fs.Fsync(inode);
    var closed: bool := *;
    if !synced || !closed {
      Abandon(fs, d0, from, path, temporary, inode, contents);
      return false;
    }
    ok := MoveIntoPlace(fs, d0, from, path, temporary, inode, contents);
  }

  method MoveIntoPlace(fs: FileSystem, ghost d0: Disk, ghost from: nat, path: string, temporary: string, inode: nat,
                       ghost contents: string)
    returns (ok: bool)
    requires Underway(fs, d0, from, path, temporary, inode, contents) && fs.disk.inodes[inode].durable
    modifies fs
    ensures fs.Valid() && old(fs.history) <= fs.history
    ensures OldThenNew(d0, fs.history, from, path, temporary, ok)
    ensures ok ==> from < |fs.history| && InPlace(d0, fs.disk, path, contents, old(fs.disk).inodes[inode].mode)
    ensures !ok ==> TargetKept(d0, fs.disk, path)
    ensures ok || fs.unlinkWorks ==> fs.disk.directory.Keys == d0.directory.Keys + if ok then {path} else {}
  {
    ok := fs.Rename(temporary, path);
    if !ok {
      Abandon(fs, d0, from, path, temporary, inode, contents);
      return;
    }
    assert forall q :: q in fs.disk.directory <==> q in d0.directory || q == path;
  }

  /** `random` is what the name generator draws. */
  method WriteFileAtomic(fs: FileSystem, path: string, contents: string, mode: int, random: nat) returns (ok: bool)
    requires fs.Valid()
    modifies fs
    ensures fs.Valid() && old(fs.history) <= fs.history
    ensures OldThenNew(old(fs.disk), fs.history, |old(fs.history)|, path, TemporaryName(path, random), ok)
    ensures ok ==> |old(fs.history)| < |fs.history| && InPlace(old(fs.disk), fs.disk, path, contents, mode)
    ensures !ok ==> TargetKept(old(fs.disk), fs.disk, path)
    ensures ok || fs.unlinkWorks ==>
      fs.disk.directory.Keys == old(fs.disk).directory.Keys + if ok then {path} else {}
  {
    ghost var d0, from := fs.disk, |fs.history|;
    if '/' !in path {
      return false;
    }
    var temporary := TemporaryName(path, random);
    var created, inode := fs.CreateExclusive(temporary);
    if !created {
      return false;
    }
    ok := FillAndPublish(fs, d0, from, path, temporary, inode, contents, mode);
  }

  /** Everything after the temporary file was created. */
  method FillAndPublish(fs: FileSystem, ghost d0: Disk, ghost from: nat, path: string, temporary: string, inode: nat,
                        contents: string, mode: int)
    returns (ok: bool)
    requires Underway(fs, d0, from, path, temporary, inode, "")
    modifies fs
    ensures fs.Valid() && old(fs.history) <= fs.history
    ensures OldThenNew(d0, fs.history, from, path, temporary, ok)
    ensures ok ==> from < |fs.history| && InPlace(d0, fs.disk, path, contents, mode)
    ensures !ok ==> TargetKept(d0, fs.disk, path)
    ensures ok || fs.unlinkWorks ==> fs.disk.directory.Keys == d0.directory.Keys + if ok then {path} else {}
  {
    var moded := fs.Fchmod(inode, mode);
    if !moded {
      Abandon(fs, d0, from, path, temporary, inode, "");
      return false;
    }
    ok := WriteAndPublish(fs, d0, from, path, temporary, inode, contents);
  }

  method WriteAndPublish(fs: FileSystem, ghost d0: Disk, ghost from: nat, path: string, temporary: string, inode: nat,
                         contents: string)
    returns (ok: bool)
    requires Underway(fs, d0, from, path, temporary, inode, "")
    modifies fs
    ensures fs.Valid() && old(fs.history) <= fs.history
    ensures OldThenNew(d0, fs.history, from, path, temporary, ok)
    ensures ok ==> from < |fs.history| && InPlace(d0, fs.disk, path, contents, old(fs.disk).inodes[inode].mode)
    ensures !ok ==> TargetKept(d0, fs.disk, path)
    ensures ok || fs.unlinkWorks ==> fs.disk.directory.Keys == d0.directory.Keys + if ok then {path} else {}
  {
    var complete, written := WriteAll(fs, d0, from, path, temporary, inode, contents);
    if !complete {
      Abandon(fs, d0, from, path, temporary, inode, written);
      return false;
    }
    ok := Publish(fs, d0, from, path, temporary, inode, contents);
  }

  // ----- readers

  function ContentAt(d: Disk, path: string): string
    requires path in d.directory && d.directory[path] in d.inodes
  {
    d.inodes[d.directory[path]].content
  }

  /**
   A reader that opens the path at one snapshot and reads at a later one sees the whole old or the
   whole new content: the inode it opened does not change any more.
   */
  lemma ReaderSeesWholeContent(
    d0: Disk, shots: seq<Disk>, from: nat, path: string, temporary: string, ok: bool, contents: string, mode: int,
    k: nat, later: nat)
    requires WellFormed(d0) && OldThenNew(d0, shots, from, path, temporary, ok)
    requires ok ==> from < |shots| && InPlace(d0, shots[|shots| - 1], path, contents, mode)
    requires from <= k <= later < |shots| && path in shots[k].directory
    ensures var i := shots[k].directory[path];
      && i in shots[later].inodes && i in shots[k].inodes && shots[later].inodes[i] == shots[k].inodes[i]
      && (|| shots[later].inodes[i].content == contents
          || (path in d0.directory && shots[later].inodes[i].content == ContentAt(d0, path)))
  {
    assert OldFilesKept(d0, shots[k], path, temporary) && OldFilesKept(d0, shots[later], path, temporary);
  }
}
