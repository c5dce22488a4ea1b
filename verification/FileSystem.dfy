/**
 * A POSIX-like filesystem with a volatile and a durable half, and the crash step between them.
 *
 * A directory is what is durable on disk plus a log of operations not yet synced; what a process
 * sees is the log replayed over the durable half. A crash keeps any subset of the log. An inode
 * whose bytes were never synced may come back holding anything at all.
 */
module FileSystem {
  import opened Base

  datatype Entry = File(ino: nat) | Symlink(dest: string)

  datatype DirOp =
    | AddName(name: string, entry: Entry)
    | DropName(name: string)
    | SwapName(src: string, dst: string, entry: Entry)

  datatype Directory = Directory(durable: map<string, Entry>, log: seq<DirOp>)

  datatype Inode = Inode(bytes: seq<byte>, synced: bool)

  datatype Fs = Fs(dirs: map<string, Directory>, inodes: seq<Inode>)

  /** What reading a name gives; a symbolic link is reported, not followed. */
  datatype Content = Absent | Bytes(bytes: seq<byte>) | LinkTo(dest: string) | Unreadable

  function Get(m: map<string, Entry>, name: string): Option<Entry> {
    if name in m then Some(m[name]) else None
  }

  function Apply(m: map<string, Entry>, op: DirOp): map<string, Entry> {
    match op
    case AddName(name, entry) => m[name := entry]
    case DropName(name) => m - {name}
    // A rename is one pointer swap: both halves survive a crash or neither does.
    case SwapName(src, dst, entry) => (m - {src})[dst := entry]
  }

  function Replay(m: map<string, Entry>, log: seq<DirOp>): map<string, Entry> {
    if log == [] then m else Apply(Replay(m, log[..|log| - 1]), Last(log))
  }

  /** The directory as running processes see it. */
  function View(d: Directory): map<string, Entry> {
    Replay(d.durable, d.log)
  }

  function Read(fs: Fs, dir: string, name: string): Content {
    if dir !in fs.dirs then Absent
    else match Get(View(fs.dirs[dir]), name)
      case None => Absent
      case Some(Symlink(dest)) => LinkTo(dest)
      case Some(File(ino)) => if ino < |fs.inodes| then Bytes(fs.inodes[ino].bytes) else Unreadable
  }

  // ---------------------------------------------------------------------------
  // System calls. Each is total: the caller decides whether it faulted.
  // ---------------------------------------------------------------------------

  predicate Exists(fs: Fs, dir: string, name: string) {
    dir in fs.dirs && name in View(fs.dirs[dir])
  }

  function Logged(fs: Fs, dir: string, op: DirOp): Fs
    requires dir in fs.dirs
  {
    var d := fs.dirs[dir];
    fs.(dirs := fs.dirs[dir := d.(log := d.log + [op])])
  }

  /** `open(path, O_CREAT | O_EXCL)`: a fresh empty inode under a name nothing holds, symlinks included. */
  function CreateExclusive(fs: Fs, dir: string, name: string): Fs
    requires dir in fs.dirs && !Exists(fs, dir, name)
  {
    Logged(fs.(inodes := fs.inodes + [Inode([], false)]), dir, AddName(name, File(|fs.inodes|)))
  }

  function Append(fs: Fs, ino: nat, bytes: seq<byte>): Fs
    requires ino < |fs.inodes|
  {
    fs.(inodes := fs.inodes[ino := Inode(fs.inodes[ino].bytes + bytes, false)])
  }

  function SyncFile(fs: Fs, ino: nat): Fs
    requires ino < |fs.inodes|
  {
    fs.(inodes := fs.inodes[ino := fs.inodes[ino].(synced := true)])
  }

  function RenameEntry(fs: Fs, dir: string, src: string, dst: string): Fs
    requires Exists(fs, dir, src)
  {
    Logged(fs, dir, SwapName(src, dst, View(fs.dirs[dir])[src]))
  }

  function Remove(fs: Fs, dir: string, name: string): Fs
    requires Exists(fs, dir, name)
  {
    Logged(fs, dir, DropName(name))
  }

  function SyncDirectory(fs: Fs, dir: string): Fs
    requires dir in fs.dirs
  {
    fs.(dirs := fs.dirs[dir := Directory(View(fs.dirs[dir]), [])])
  }

  // ---------------------------------------------------------------------------
  // The crash step.
  // ---------------------------------------------------------------------------

  function Survivors(log: seq<DirOp>, keep: seq<bool>): seq<DirOp>
    requires |keep| == |log|
  {
    if log == [] then []
    else Survivors(log[..|log| - 1], keep[..|log| - 1]) + (if Last(keep) then [Last(log)] else [])
  }

  ghost predicate DirectoryCrashesTo(d: Directory, d': Directory) {
    exists keep: seq<bool> | |keep| == |d.log| ::
      d' == Directory(Replay(d.durable, Survivors(d.log, keep)), [])
  }

  /** Power is lost: any subset of each directory's unsynced operations, and anything at all in unsynced bytes. */
  ghost predicate CrashesTo(fs: Fs, fs': Fs) {
    && fs'.dirs.Keys == fs.dirs.Keys
    && (forall dir | dir in fs.dirs :: DirectoryCrashesTo(fs.dirs[dir], fs'.dirs[dir]))
    && |fs'.inodes| == |fs.inodes|
    && (forall i | 0 <= i < |fs.inodes| ::
          fs'.inodes[i].synced && (fs.inodes[i].synced ==> fs'.inodes[i] == fs.inodes[i]))
  }

  // ---------------------------------------------------------------------------
  // Which entries a name can come back with, computed rather than quantified.
  // ---------------------------------------------------------------------------

  /** What one operation leaves under `name`, or `None` where it does not touch it. */
  function Effect(op: DirOp, name: string): Option<Option<Entry>> {
    match op
    case AddName(n, entry) => if n == name then Some(Some(entry)) else None
    case DropName(n) => if n == name then Some(None) else None
    case SwapName(src, dst, entry) =>
      if dst == name then Some(Some(entry)) else if src == name then Some(None) else None
  }

  function Effects(log: seq<DirOp>, name: string): seq<Option<Entry>> {
    if log == [] then []
    else
      var rest := Effects(log[..|log| - 1], name);
      match Effect(Last(log), name)
      case None => rest
      case Some(e) => rest + [e]
  }

  /** Every entry `name` may hold after a crash, oldest first; the last one is what it holds now. */
  function Candidates(d: Directory, name: string): (r: seq<Option<Entry>>)
    ensures |r| > 0
  {
    [Get(d.durable, name)] + Effects(d.log, name)
  }

  lemma {:induction false} ViewIsLastCandidate(d: Directory, name: string)
    ensures Get(View(d), name) == Last(Candidates(d, name))
    decreases |d.log|
  {
    if d.log == [] {
    } else {
      ViewIsLastCandidate(d.(log := d.log[..|d.log| - 1]), name);
    }
  }

  lemma ApplyEffect(m: map<string, Entry>, op: DirOp, name: string)
    ensures Get(Apply(m, op), name) == Effect(op, name).UnwrapOr(Get(m, name))
  {
  }

  lemma ReplayStep(m: map<string, Entry>, log: seq<DirOp>, op: DirOp)
    ensures Replay(m, log + [op]) == Apply(Replay(m, log), op)
  {
    assert (log + [op])[..|log|] == log;
  }

  lemma {:induction false} SurvivorIsCandidate(d: Directory, keep: seq<bool>, name: string)
    requires |keep| == |d.log|
    ensures Get(Replay(d.durable, Survivors(d.log, keep)), name) in Candidates(d, name)
    decreases |d.log|
  {
    if d.log == [] {
    } else {
      var n := |d.log| - 1;
      var before := d.(log := d.log[..n]);
      SurvivorIsCandidate(before, keep[..n], name);
      var kept := Survivors(before.log, keep[..n]);
      var op := d.log[n];
      CandidatesGrow(before, op, name);
      assert before.log + [op] == d.log;
      if keep[n] {
        assert Survivors(d.log, keep) == kept + [op];
        ReplayStep(d.durable, kept, op);
        ApplyEffect(Replay(d.durable, kept), op, name);
      } else {
        assert Survivors(d.log, keep) == kept;
      }
    }
  }

  lemma CandidatesGrow(d: Directory, op: DirOp, name: string)
    ensures Candidates(d.(log := d.log + [op]), name) ==
            Candidates(d, name) + (if Effect(op, name).Some? then [Effect(op, name).value] else [])
  {
    assert (d.log + [op])[..|d.log|] == d.log;
  }

  /** The converse: a crash can really leave each candidate. */
  lemma {:induction false} CandidateSurvives(d: Directory, name: string, e: Option<Entry>) returns (keep: seq<bool>)
    requires e in Candidates(d, name)
    ensures |keep| == |d.log|
    ensures Get(Replay(d.durable, Survivors(d.log, keep)), name) == e
    decreases |d.log|
  {
    if d.log == [] {
      keep := [];
    } else {
      var n := |d.log| - 1;
      var before, op := d.(log := d.log[..n]), d.log[n];
      assert before.log + [op] == d.log;
      CandidatesGrow(before, op, name);
      var isLast := Effect(op, name) == Some(e);
      var prior := CandidateSurvives(before, name, if isLast then Get(d.durable, name) else e);
      keep := prior + [isLast];
      assert keep[..n] == prior;
      var kept := Survivors(before.log, prior);
      if isLast {
        assert Survivors(d.log, keep) == kept + [op];
        ReplayStep(d.durable, kept, op);
        ApplyEffect(Replay(d.durable, kept), op, name);
      } else {
        assert Survivors(d.log, keep) == kept;
      }
    }
  }

  /** What a name holding `e` may read as after a crash. */
  predicate EntryReads(inodes: seq<Inode>, e: Option<Entry>, c: Content) {
    match e
    case None => c == Absent
    case Some(Symlink(dest)) => c == LinkTo(dest)
    case Some(File(ino)) =>
      if ino < |inodes| then c.Bytes? && (inodes[ino].synced ==> c.bytes == inodes[ino].bytes)
      else c == Unreadable
  }

  /** `c` is something `dir/name` may read as after power is lost in `fs`. */
  ghost predicate Outcome(fs: Fs, dir: string, name: string, c: Content) {
    if dir !in fs.dirs then c == Absent
    else exists e | e in Candidates(fs.dirs[dir], name) :: EntryReads(fs.inodes, e, c)
  }

  /** `Outcome` is exactly the crash step seen through one name. */
  lemma OutcomesAreCrashes(fs: Fs, dir: string, name: string, c: Content)
    ensures Outcome(fs, dir, name, c) <==> exists fs' :: CrashesTo(fs, fs') && Read(fs', dir, name) == c
  {
    if fs' :| CrashesTo(fs, fs') && Read(fs', dir, name) == c {
      CrashIsOutcome(fs, fs', dir, name);
    }
    if Outcome(fs, dir, name, c) {
      var fs' := OutcomeHasCrash(fs, dir, name, c);
    }
  }

  lemma CrashIsOutcome(fs: Fs, fs': Fs, dir: string, name: string)
    requires CrashesTo(fs, fs')
    ensures Outcome(fs, dir, name, Read(fs', dir, name))
  {
    if dir in fs.dirs {
      var d := fs.dirs[dir];
      assert DirectoryCrashesTo(d, fs'.dirs[dir]);
      var keep: seq<bool> :| |keep| == |d.log| &&
        fs'.dirs[dir] == Directory(Replay(d.durable, Survivors(d.log, keep)), []);
      SurvivorIsCandidate(d, keep, name);
      assert EntryReads(fs.inodes, Get(View(fs'.dirs[dir]), name), Read(fs', dir, name));
    }
  }

  lemma OutcomeHasCrash(fs: Fs, dir: string, name: string, c: Content) returns (fs': Fs)
    requires Outcome(fs, dir, name, c)
    ensures CrashesTo(fs, fs') && Read(fs', dir, name) == c
  {
    if dir !in fs.dirs {
      fs' := LoseEverything(fs);
    } else {
      var e :| e in Candidates(fs.dirs[dir], name) && EntryReads(fs.inodes, e, c);
      var d' := EntryHasCrash(fs.dirs[dir], name, e);
      hide Candidates, DirectoryCrashesTo, View, EntryReads;
      fs' := CrashWithEntry(fs, dir, d', name, e, c);
    }
  }

  lemma EntryHasCrash(d: Directory, name: string, e: Option<Entry>) returns (d': Directory)
    requires e in Candidates(d, name)
    ensures DirectoryCrashesTo(d, d') && Get(View(d'), name) == e
  {
    var keep := CandidateSurvives(d, name, e);
    d' := Directory(Replay(d.durable, Survivors(d.log, keep)), []);
    hide Candidates, Survivors, Get;
  }

  lemma CrashWithEntry(fs: Fs, dir: string, d': Directory, name: string, e: Option<Entry>, c: Content) returns (fs': Fs)
    requires dir in fs.dirs && DirectoryCrashesTo(fs.dirs[dir], d') && Get(View(d'), name) == e
    requires EntryReads(fs.inodes, e, c)
    ensures CrashesTo(fs, fs') && Read(fs', dir, name) == c
  {
    hide DirectoryCrashesTo, View, Get;
    var lost := LoseEverything(fs);
    var inodes' := match e
      case Some(File(ino)) => if ino < |fs.inodes| then lost.inodes[ino := Inode(c.bytes, true)] else lost.inodes
      case _ => lost.inodes;
    fs' := Fs(lost.dirs[dir := d'], inodes');
  }

  /** The worst crash: no unsynced directory operation survives. */
  lemma LoseEverything(fs: Fs) returns (fs': Fs)
    ensures CrashesTo(fs, fs')
    ensures forall dir :: dir !in fs.dirs ==> dir !in fs'.dirs
  {
    fs' := Fs(
      map d | d in fs.dirs :: Directory(fs.dirs[d].durable, []),
      seq(|fs.inodes|, i requires 0 <= i < |fs.inodes| => fs.inodes[i].(synced := true)));
    forall d | d in fs.dirs
      ensures DirectoryCrashesTo(fs.dirs[d], fs'.dirs[d])
    {
      var keep := seq(|fs.dirs[d].log|, _ => false);
      NothingSurvives(fs.dirs[d].log);
      assert |keep| == |fs.dirs[d].log|;
    }
  }

  lemma {:induction false} NothingSurvives(log: seq<DirOp>)
    ensures Survivors(log, seq(|log|, _ => false)) == []
  {
    if log == [] {
    } else {
      var n := |log| - 1;
      NothingSurvives(log[..n]);
      assert seq(|log|, _ => false)[..n] == seq(n, _ => false);
    }
  }

  // ---------------------------------------------------------------------------
  // How each call moves a name's candidates.
  // ---------------------------------------------------------------------------

  lemma LoggedCandidates(fs: Fs, dir: string, op: DirOp, dir': string, name: string)
    requires dir in fs.dirs && dir' in fs.dirs
    ensures Candidates(Logged(fs, dir, op).dirs[dir'], name) ==
            Candidates(fs.dirs[dir'], name) +
              (if dir' == dir && Effect(op, name).Some? then [Effect(op, name).value] else [])
  {
    CandidatesGrow(fs.dirs[dir], op, name);
  }

  lemma SyncedCandidates(fs: Fs, dir: string, name: string)
    requires dir in fs.dirs
    ensures Candidates(SyncDirectory(fs, dir).dirs[dir], name) == [Last(Candidates(fs.dirs[dir], name))]
  {
    ViewIsLastCandidate(fs.dirs[dir], name);
  }
}
