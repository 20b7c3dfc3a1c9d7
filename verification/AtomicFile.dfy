/** Replacing a file so that a crash leaves the whole old contents or the whole
    new: the file system it runs on, and the write that does it. */
module AtomicFile {
  import opened Utf8
  import opened Decimal

  type Bytes = seq<Byte>
  type Name = string
  type Dir = map<Name, nat>

  /** Contents that are not synced are anything at all after a crash. */
  datatype File = File(bytes: Bytes, synced: bool)

  datatype DirOp = Link(name: Name, inode: nat) | Unlink(name: Name) | Move(from: Name, to: Name, inode: nat)

  /** `live` is the directory programs see. After a crash it is `disk` with any
      of the `pending` changes, each kept or lost on its own. */
  datatype Fs = Fs(data: map<nat, File>, live: Dir, disk: Dir, pending: seq<DirOp>, next: nat)

  /** A rename drops the old name and sets the new one at once. */
  function Do(dir: Dir, op: DirOp): Dir {
    match op
    case Link(name, inode) => dir[name := inode]
    case Unlink(name) => dir - {name}
    case Move(from, to, inode) => (if from in dir && dir[from] == inode then dir - {from} else dir)[to := inode]
  }

  function Kept(dir: Dir, ops: seq<DirOp>, keep: seq<bool>): Dir
    requires |keep| == |ops|
    decreases |ops|
  {
    if ops == [] then dir
    else
      var n := |ops| - 1;
      var before := Kept(dir, ops[..n], keep[..n]);
      if keep[n] then Do(before, ops[n]) else before
  }

  function Read(fs: Fs, name: Name): Option<Bytes> {
    if name in fs.live && fs.live[name] in fs.data then Some(fs.data[fs.live[name]].bytes) else None
  }

  function Settled(data: map<nat, File>, garbage: map<nat, Bytes>): map<nat, File> {
    map i | i in data :: if data[i].synced then data[i] else File(if i in garbage then garbage[i] else [], true)
  }

  /** A crash and a restart: `keep` says which directory changes survived,
      `garbage` what became of data that was not synced. */
  function Crash(fs: Fs, keep: seq<bool>, garbage: map<nat, Bytes>): Fs
    requires |keep| == |fs.pending|
  {
    var dir := Kept(fs.disk, fs.pending, keep);
    Fs(Settled(fs.data, garbage), dir, dir, [], fs.next)
  }

  // ---- what the operating system does ----

  datatype Call =
    | Create(name: Name)
    | WriteAll(name: Name, bytes: Bytes)
    | SyncFile(name: Name)
    | Rename(from: Name, to: Name)
    | Remove(name: Name)
    | SyncDir

  function Change(fs: Fs, op: DirOp): Fs {
    fs.(live := Do(fs.live, op), pending := fs.pending + [op])
  }

  function Put(fs: Fs, name: Name, file: File): Fs {
    if name in fs.live then fs.(data := fs.data[fs.live[name] := file]) else fs
  }

  /** A call that succeeds. Creating a file that is there truncates it. */
  function After(fs: Fs, call: Call): Fs {
    match call
    case Create(name) =>
      if name in fs.live then Put(fs, name, File([], false))
      else Change(fs.(data := fs.data[fs.next := File([], false)], next := fs.next + 1), Link(name, fs.next))
    case WriteAll(name, bytes) => Put(fs, name, File(bytes, false))
    case SyncFile(name) =>
      if name in fs.live && fs.live[name] in fs.data then Put(fs, name, fs.data[fs.live[name]].(synced := true)) else fs
    case Rename(from, to) => if from in fs.live then Change(fs, Move(from, to, fs.live[from])) else fs
    case Remove(name) => if name in fs.live then Change(fs, Unlink(name)) else fs
    case SyncDir => fs.(disk := fs.live, pending := [])
  }

  /** A call that fails changes nothing, except that a failed write may leave
      anything in the file. */
  function AfterFailed(fs: Fs, call: Call, left: Bytes): Fs {
    if call.WriteAll? then Put(fs, call.name, File(left, false)) else fs
  }

  /** The disk, with every state it has been in since it was mounted. */
  class Disk {
    var fs: Fs
    var trace: seq<Fs>

    constructor (mounted: Fs)
      ensures fs == mounted && trace == [mounted]
    {
      fs := mounted;
      trace := [mounted];
    }

    method Issue(call: Call, ok: bool, left: Bytes)
      modifies this
      ensures fs == if ok then After(old(fs), call) else AfterFailed(old(fs), call, left)
      ensures trace == old(trace) + [fs]
    {
      fs := if ok then After(fs, call) else AfterFailed(fs, call, left);
      trace := trace + [fs];
    }
  }

  // ---- crash safety ----

  function Temp(path: Name): (temp: Name)
    ensures temp != path
  {
    path + ".tmp"
  }

  /** What `dir` would say of `path` is one of `versions`, and on disk in full;
      and the temporary file is no second name for it. */
  predicate Whole(fs: Fs, dir: Dir, path: Name, versions: set<Option<Bytes>>) {
    && (forall name :: name in dir ==> dir[name] < fs.next)
    && (path !in dir ==> None in versions)
    && (path in dir ==>
         && dir[path] in fs.data && fs.data[dir[path]].synced && Some(fs.data[dir[path]].bytes) in versions
         && (Temp(path) in dir ==> dir[path] != dir[Temp(path)])
         && (Temp(path) in fs.live ==> dir[path] != fs.live[Temp(path)]))
  }

  function Everything(n: nat): (keep: seq<bool>)
    ensures |keep| == n
    ensures forall i :: 0 <= i < n ==> keep[i]
  {
    seq(n, _ => true)
  }

  /** Whatever a crash does now, `path` reads as one of `versions`. */
  ghost predicate Safe(fs: Fs, path: Name, versions: set<Option<Bytes>>) {
    && (forall i :: i in fs.data ==> i < fs.next)
    && fs.live == Kept(fs.disk, fs.pending, Everything(|fs.pending|))
    && forall keep: seq<bool> :: |keep| == |fs.pending| ==> Whole(fs, Kept(fs.disk, fs.pending, keep), path, versions)
  }

  /** What `Safe` means: every crash leaves one of `versions`, whole, and a disk
      that is safe again. */
  lemma CrashLeavesOneVersion(fs: Fs, path: Name, versions: set<Option<Bytes>>, keep: seq<bool>, garbage: map<nat, Bytes>)
    requires Safe(fs, path, versions) && |keep| == |fs.pending|
    ensures Read(Crash(fs, keep, garbage), path) in versions
    ensures Safe(Crash(fs, keep, garbage), path, {Read(Crash(fs, keep, garbage), path)})
  {
    var after := Crash(fs, keep, garbage);
    assert Whole(fs, Kept(fs.disk, fs.pending, keep), path, versions);
    assert forall keep': seq<bool> :: |keep'| == 0 ==> Kept(after.disk, [], keep') == after.disk;
  }

  /** A disk as it is mounted: nothing pending, and the ledger, if there is one,
      on disk in full and under no second name that the store writes to. */
  predicate Clean(fs: Fs, path: Name) {
    && fs.pending == [] && fs.live == fs.disk
    && (forall i :: i in fs.data ==> i < fs.next) && (forall name :: name in fs.live ==> fs.live[name] < fs.next)
    && (path in fs.live ==> fs.live[path] in fs.data && fs.data[fs.live[path]].synced)
    && (path in fs.live && Temp(path) in fs.live ==> fs.live[path] != fs.live[Temp(path)])
  }

  lemma CleanDiskIsSafe(fs: Fs, path: Name)
    requires Clean(fs, path)
    ensures Safe(fs, path, {Read(fs, path)})
  {
    assert forall keep: seq<bool> :: |keep| == 0 ==> Kept(fs.disk, fs.pending, keep) == fs.disk;
  }

  lemma KeptGrows(dir: Dir, ops: seq<DirOp>, op: DirOp, keep: seq<bool>)
    requires |keep| == |ops| + 1
    ensures Kept(dir, ops + [op], keep)
         == var before := Kept(dir, ops, keep[..|ops|]); if keep[|ops|] then Do(before, op) else before
  {
    assert (ops + [op])[..|ops|] == ops;
  }

  /** A directory change keeps `Safe` if, from every directory a crash could
      leave, both keeping and losing it do. */
  lemma ChangeKeeps(fs: Fs, op: DirOp, path: Name, versions: set<Option<Bytes>>, wider: set<Option<Bytes>>)
    requires Safe(fs, path, versions)
    requires forall dir :: Whole(fs, dir, path, versions) ==>
      Whole(Change(fs, op), dir, path, wider) && Whole(Change(fs, op), Do(dir, op), path, wider)
    ensures Safe(Change(fs, op), path, wider)
  {
    var after := Change(fs, op);
    var n := |fs.pending|;
    forall keep: seq<bool> | |keep| == n + 1
      ensures Whole(after, Kept(after.disk, after.pending, keep), path, wider)
    {
      KeptGrows(fs.disk, fs.pending, op, keep);
      assert Whole(fs, Kept(fs.disk, fs.pending, keep[..n]), path, versions);
    }
    KeptGrows(fs.disk, fs.pending, op, Everything(n + 1));
    assert Everything(n + 1)[..n] == Everything(n);
  }

  lemma SafeWidens(fs: Fs, path: Name, versions: set<Option<Bytes>>, wider: set<Option<Bytes>>)
    requires Safe(fs, path, versions) && versions <= wider
    ensures Safe(fs, path, wider)
  {
  }

  /** Writing to the temporary file reaches no version of `path`. */
  lemma PutKeeps(fs: Fs, path: Name, versions: set<Option<Bytes>>, file: File)
    requires Safe(fs, path, versions)
    ensures Safe(Put(fs, Temp(path), file), path, versions)
    ensures Read(Put(fs, Temp(path), file), path) == Read(fs, path)
  {
    var all := Everything(|fs.pending|);
    assert Whole(fs, Kept(fs.disk, fs.pending, all), path, versions);
    forall keep: seq<bool> | |keep| == |fs.pending|
      ensures Whole(Put(fs, Temp(path), file), Kept(fs.disk, fs.pending, keep), path, versions)
    {
      assert Whole(fs, Kept(fs.disk, fs.pending, keep), path, versions);
    }
  }

  lemma CreateKeeps(fs: Fs, path: Name, versions: set<Option<Bytes>>)
    requires Safe(fs, path, versions)
    ensures var after := After(fs, Create(Temp(path)));
      Safe(after, path, versions) && Temp(path) in after.live && Read(after, path) == Read(fs, path)
  {
    var temp := Temp(path);
    if temp in fs.live {
      PutKeeps(fs, path, versions, File([], false));
    } else {
      var room := fs.(data := fs.data[fs.next := File([], false)], next := fs.next + 1);
      assert Whole(fs, Kept(fs.disk, fs.pending, Everything(|fs.pending|)), path, versions);
      forall keep: seq<bool> | |keep| == |fs.pending|
        ensures WholeBelow(room, Kept(fs.disk, fs.pending, keep), path, versions, fs.next)
      {
        assert Whole(fs, Kept(fs.disk, fs.pending, keep), path, versions);
      }
      LinkKeeps(room, path, versions, fs.next);
    }
  }

  predicate WholeBelow(fs: Fs, dir: Dir, path: Name, versions: set<Option<Bytes>>, inode: nat) {
    Whole(fs, dir, path, versions) && forall name :: name in dir ==> dir[name] < inode
  }

  lemma LinkKeeps(fs: Fs, path: Name, versions: set<Option<Bytes>>, inode: nat)
    requires (forall i :: i in fs.data ==> i < fs.next) && inode < fs.next
    requires fs.live == Kept(fs.disk, fs.pending, Everything(|fs.pending|)) && Temp(path) !in fs.live
    requires forall keep: seq<bool> :: |keep| == |fs.pending| ==>
      WholeBelow(fs, Kept(fs.disk, fs.pending, keep), path, versions, inode)
    ensures Safe(Change(fs, Link(Temp(path), inode)), path, versions)
  {
    var op := Link(Temp(path), inode);
    var after := Change(fs, op);
    var n := |fs.pending|;
    forall keep: seq<bool> | |keep| == n + 1
      ensures Whole(after, Kept(after.disk, after.pending, keep), path, versions)
    {
      KeptGrows(fs.disk, fs.pending, op, keep);
      assert WholeBelow(fs, Kept(fs.disk, fs.pending, keep[..n]), path, versions, inode);
    }
    KeptGrows(fs.disk, fs.pending, op, Everything(n + 1));
    assert Everything(n + 1)[..n] == Everything(n);
  }

  lemma RemoveKeeps(fs: Fs, path: Name, versions: set<Option<Bytes>>)
    requires Safe(fs, path, versions)
    ensures Safe(After(fs, Remove(Temp(path))), path, versions)
    ensures Read(After(fs, Remove(Temp(path))), path) == Read(fs, path)
  {
    if Temp(path) in fs.live {
      ChangeKeeps(fs, Unlink(Temp(path)), path, versions, versions);
    }
  }

  /** `name` is a file that holds `bytes`, on disk in full. */
  predicate Flushed(fs: Fs, name: Name, bytes: Bytes) {
    name in fs.live && fs.live[name] in fs.data && fs.data[fs.live[name]] == File(bytes, true)
  }

  /** The rename, once the data it brings is on disk. */
  lemma RenameKeeps(fs: Fs, path: Name, versions: set<Option<Bytes>>, bytes: Bytes)
    requires Safe(fs, path, versions) && Flushed(fs, Temp(path), bytes)
    ensures var after := After(fs, Rename(Temp(path), path));
      Safe(after, path, versions + {Some(bytes)}) && Read(after, path) == Some(bytes)
  {
    var inode := fs.live[Temp(path)];
    ChangeKeeps(fs, Move(Temp(path), path, inode), path, versions, versions + {Some(bytes)});
  }

  /** The flush before the rename is needed: without it some crash leaves
      anything at all in the ledger. */
  lemma UnflushedRenameLosesTheLedger(fs: Fs, path: Name, versions: set<Option<Bytes>>, junk: Bytes)
    returns (keep: seq<bool>, garbage: map<nat, Bytes>)
    requires Safe(fs, path, versions) && Temp(path) in fs.live
    requires fs.live[Temp(path)] in fs.data && !fs.data[fs.live[Temp(path)]].synced
    ensures |keep| == |After(fs, Rename(Temp(path), path)).pending|
    ensures Read(Crash(After(fs, Rename(Temp(path), path)), keep, garbage), path) == Some(junk)
  {
    var n := |fs.pending|;
    var inode := fs.live[Temp(path)];
    keep, garbage := Everything(n + 1), map[inode := junk];
    KeptGrows(fs.disk, fs.pending, Move(Temp(path), path, inode), keep);
    assert keep[..n] == Everything(n);
  }

  lemma SyncDirNarrows(fs: Fs, path: Name, versions: set<Option<Bytes>>)
    requires Safe(fs, path, versions)
    ensures Safe(After(fs, SyncDir), path, {Read(fs, path)})
    ensures Read(After(fs, SyncDir), path) == Read(fs, path)
  {
    assert Whole(fs, Kept(fs.disk, fs.pending, Everything(|fs.pending|)), path, versions);
    assert forall keep: seq<bool> :: |keep| == 0 ==> Kept(fs.live, [], keep) == fs.live;
  }

  // ---- the write ----

  /** How each call of one write goes. A write that fails leaves `left`. */
  datatype Fate = Fate(created: bool, written: bool, left: Bytes, flushed: bool, renamed: bool, removed: bool, dirSynced: bool)

  ghost predicate SafeSince(trace: seq<Fs>, from: nat, path: Name, versions: set<Option<Bytes>>) {
    forall k :: from <= k < |trace| ==> Safe(trace[k], path, versions)
  }

  lemma SinceWidens(trace: seq<Fs>, from: nat, path: Name, versions: set<Option<Bytes>>, wider: set<Option<Bytes>>)
    requires SafeSince(trace, from, path, versions) && versions <= wider
    ensures SafeSince(trace, from, path, wider)
  {
    hide Safe;
    forall k | from <= k < |trace| ensures Safe(trace[k], path, wider) {
      SafeWidens(trace[k], path, versions, wider);
    }
  }

  /** A crash in any of the states since `from` leaves one of `versions`, whole. */
  lemma CrashesSince(trace: seq<Fs>, from: nat, path: Name, versions: set<Option<Bytes>>)
    requires SafeSince(trace, from, path, versions)
    ensures forall k, keep, garbage :: from <= k < |trace| && |keep| == |trace[k].pending| ==>
      Read(Crash(trace[k], keep, garbage), path) in versions
  {
    hide Safe, Crash, Read;
    forall k, keep, garbage | from <= k < |trace| && |keep| == |trace[k].pending|
      ensures Read(Crash(trace[k], keep, garbage), path) in versions
    {
      CrashLeavesOneVersion(trace[k], path, versions, keep, garbage);
    }
  }

  /** Whatever state a crash catches the disk in, `path` is one of the old versions
      or the new one; after a failure it is one of the old, and after a synced
      success nothing but the new. */
  method WriteAtomic(disk: Disk, path: Name, bytes: Bytes, fate: Fate, ghost versions: set<Option<Bytes>>) returns (ok: bool)
    requires Safe(disk.fs, path, versions)
    modifies disk
    ensures ok <==> fate.created && fate.written && fate.flushed && fate.renamed
    ensures |old(disk.trace)| <= |disk.trace| && disk.trace[..|old(disk.trace)|] == old(disk.trace)
    ensures SafeSince(disk.trace, |old(disk.trace)|, path, versions + {Some(bytes)})
    ensures forall k, keep, garbage :: |old(disk.trace)| <= k < |disk.trace| && |keep| == |disk.trace[k].pending| ==>
      Read(Crash(disk.trace[k], keep, garbage), path) in versions + {Some(bytes)}
    ensures Read(disk.fs, path) == if ok then Some(bytes) else Read(old(disk.fs), path)
    ensures Safe(disk.fs, path, if !ok then versions else if fate.dirSynced then {Some(bytes)} else versions + {Some(bytes)})
  {
    hide Safe, After, Read, Crash;
    var temp := Temp(path);
    ghost var both := versions + {Some(bytes)};
    ok := WriteTemp(disk, path, bytes, fate, versions);
    SinceWidens(disk.trace, |old(disk.trace)|, path, versions, both);
    SafeWidens(disk.fs, path, versions, both);
    if ok {
      ok := fate.renamed;
      if ok {
        RenameKeeps(disk.fs, path, versions, bytes);
      }
      disk.Issue(Rename(temp, path), ok, []);
    }
    if !ok {
      RemoveKeeps(disk.fs, path, versions);
      disk.Issue(Remove(temp), fate.removed, []);
      SafeWidens(disk.fs, path, versions, both);
    } else {
      SyncDirNarrows(disk.fs, path, both);
      disk.Issue(SyncDir, fate.dirSynced, []);
      SafeWidens(disk.fs, path, if fate.dirSynced then {Some(bytes)} else both, both);
    }
    CrashesSince(disk.trace, |old(disk.trace)|, path, both);
  }

  /** Create, write and flush the temporary file. */
  method WriteTemp(disk: Disk, path: Name, bytes: Bytes, fate: Fate, ghost versions: set<Option<Bytes>>) returns (ok: bool)
    requires Safe(disk.fs, path, versions)
    modifies disk
    ensures ok <==> fate.created && fate.written && fate.flushed
    ensures |old(disk.trace)| <= |disk.trace| && disk.trace[..|old(disk.trace)|] == old(disk.trace)
    ensures SafeSince(disk.trace, |old(disk.trace)|, path, versions)
    ensures Safe(disk.fs, path, versions) && Read(disk.fs, path) == Read(old(disk.fs), path)
    ensures ok ==> Flushed(disk.fs, Temp(path), bytes)
  {
    hide Safe;
    var temp := Temp(path);
    CreateKeeps(disk.fs, path, versions);
    disk.Issue(Create(temp), fate.created, []);
    ok := fate.created;
    if ok {
      PutKeeps(disk.fs, path, versions, File(bytes, false));
      PutKeeps(disk.fs, path, versions, File(fate.left, false));
      disk.Issue(WriteAll(temp, bytes), fate.written, fate.left);
      ok := fate.written;
    }
    if ok {
      PutKeeps(disk.fs, path, versions, File(bytes, true));
      disk.Issue(SyncFile(temp), fate.flushed, []);
      ok := fate.flushed;
    }
  }
}
