/**
 * `packages/atomic-write`: replacing and creating files as interleaved system calls.
 *
 * Any number of callers run `replaceFileAtomically` and `createFileExclusively` at once. One step
 * is one system call of one caller, which may fault. The file's own control flow (its `handle`
 * variable, its catch block and its `finally`) is the program counter.
 */
module AtomicWrite {
  import opened Base
  import opened FileSystem

  datatype Job =
    | Replace(dir: string, name: string, temp: string, bytes: seq<byte>)
    | Create(dir: string, name: string, bytes: seq<byte>)

  /** How far the bytes of a create that throws had come: some written, all written, or all synced. */
  datatype Extent = Partial | Written | OnDisk

  /** `h` is the inode behind the caller's handle; it is kept after the close as a name for the bytes. */
  datatype Pc =
    | Open
    | Write(h: nat)
    | Sync(h: nat)
    | Close(h: nat)
    | Rename(h: nat)
    | OpenDir(h: nat)
    | SyncDir(h: nat)
    | CloseDir(h: nat, synced: bool)
    | CatchClose(h: nat)
    | CatchUnlink
    | FinallyClose(h: nat, got: Extent)
    | Returned(h: nat)
    | Threw
    | ThrewLanded(h: nat, got: Extent)

  /** Whether the next call works; a failed write may leave `written` bytes of what it was given. */
  datatype Choice = Works | Faults(written: nat)

  /** `order` is a history: who gave a target its entry, oldest first. No step reads it. */
  datatype System = System(fs: Fs, jobs: seq<Job>, pcs: seq<Pc>, order: seq<nat>)

  predicate Held(pc: Pc) {
    !pc.Open? && !pc.CatchUnlink? && !pc.Threw?
  }

  /** The caller's bytes are (or were) behind the target's own name. */
  predicate Landed(job: Job, pc: Pc) {
    match pc
    case OpenDir(_) | SyncDir(_) | CloseDir(_, _) | Returned(_) | ThrewLanded(_, _) => true
    case Write(_) | Sync(_) | Close(_) | FinallyClose(_, _) => job.Create?
    case _ => false
  }

  /** The bytes behind the handle are complete and on disk. */
  predicate Complete(job: Job, pc: Pc) {
    match pc
    case Close(_) | Rename(_) | OpenDir(_) | SyncDir(_) | CloseDir(_, _) | Returned(_) => true
    case ThrewLanded(_, got) => got.OnDisk?
    case _ => false
  }

  /** The entry has survived a directory sync made after it landed. */
  predicate Settled(pc: Pc) {
    pc.Returned? || (pc.CloseDir? && pc.synced)
  }

  predicate Finished(pc: Pc) {
    pc.Returned? || pc.Threw? || pc.ThrewLanded?
  }

  /** Enough of the caller's program has a handle on a live temporary. */
  predicate TempHeld(job: Job, pc: Pc) {
    job.Replace? && (pc.Write? || pc.Sync? || pc.Close? || pc.Rename?)
  }

  /** The name `open` claims: the temporary for a replace, the real path for a create. */
  function Claimed(job: Job): string {
    if job.Replace? then job.temp else job.name
  }

  /** One system call of `replaceFileAtomically` or `createFileExclusively`. */
  function Call(fs: Fs, job: Job, pc: Pc, choice: Choice): (Fs, Pc)
    requires Held(pc) ==> pc.h < |fs.inodes|
  {
    var ok := choice.Works?;
    match pc
    case Open =>
      if ok && job.dir in fs.dirs && !Exists(fs, job.dir, Claimed(job)) then
        (CreateExclusive(fs, job.dir, Claimed(job)), Write(|fs.inodes|))
      else (fs, if job.Replace? then CatchUnlink else Threw)
    case Write(h) =>
      if ok then (Append(fs, h, job.bytes), Sync(h))
      else
        var part := job.bytes[..if choice.written <= |job.bytes| then choice.written else |job.bytes|];
        (Append(fs, h, part), if job.Replace? then CatchClose(h) else FinallyClose(h, Partial))
    case Sync(h) =>
      if ok then (SyncFile(fs, h), Close(h))
      else (fs, if job.Replace? then CatchClose(h) else FinallyClose(h, Written))
    case Close(h) =>
      if ok then (fs, if job.Replace? then Rename(h) else OpenDir(h))
      // The handle is still set, so the catch closes it a second time.
      else (fs, if job.Replace? then CatchClose(h) else ThrewLanded(h, OnDisk))
    case Rename(h) =>
      if ok && job.Replace? && Exists(fs, job.dir, job.temp) then
        (RenameEntry(fs, job.dir, job.temp, job.name), OpenDir(h))
      else (fs, CatchUnlink)
    case OpenDir(h) => (fs, if ok then SyncDir(h) else ThrewLanded(h, OnDisk))
    case SyncDir(h) =>
      if ok && job.dir in fs.dirs then (SyncDirectory(fs, job.dir), CloseDir(h, true))
      else (fs, CloseDir(h, false))
    case CloseDir(h, synced) => (fs, if ok && synced then Returned(h) else ThrewLanded(h, OnDisk))
    // A close that throws inside the catch block skips the unlink below it.
    case CatchClose(h) => (fs, if ok then CatchUnlink else Threw)
    case CatchUnlink =>
      if ok && job.Replace? && Exists(fs, job.dir, job.temp) then (Remove(fs, job.dir, job.temp), Threw)
      else (fs, Threw)
    case FinallyClose(h, got) => (fs, ThrewLanded(h, got))
    case Returned(_) | Threw | ThrewLanded(_, _) => (fs, pc)
  }

  predicate WellShaped(s: System) {
    && |s.pcs| == |s.jobs|
    && (forall i | 0 <= i < |s.pcs| :: Held(s.pcs[i]) ==> s.pcs[i].h < |s.fs.inodes|)
  }

  function Step(s: System, i: nat, choice: Choice): System
    requires WellShaped(s) && i < |s.jobs|
  {
    var (fs, pc) := Call(s.fs, s.jobs[i], s.pcs[i], choice);
    var landed := !Landed(s.jobs[i], s.pcs[i]) && Landed(s.jobs[i], pc);
    System(fs, s.jobs, s.pcs[i := pc], if landed then s.order + [i] else s.order)
  }

  /** A scheduler's decisions: which caller moves, and whether its call works. */
  datatype Move = Move(who: nat, choice: Choice)

  function Run(s: System, moves: seq<Move>): System
    requires WellShaped(s)
    ensures WellShaped(Run(s, moves)) && Run(s, moves).jobs == s.jobs
  {
    if moves == [] then s
    else
      var before := Run(s, moves[..|moves| - 1]);
      var m := Last(moves);
      if m.who < |s.jobs| then
        CallKeepsInodes(before.fs, before.jobs[m.who], before.pcs[m.who], m.choice);
        Step(before, m.who, m.choice)
      else before
  }

  lemma CallKeepsInodes(fs: Fs, job: Job, pc: Pc, choice: Choice)
    requires Held(pc) ==> pc.h < |fs.inodes|
    ensures var (fs', pc') := Call(fs, job, pc, choice);
      && |fs.inodes| <= |fs'.inodes|
      && (Held(pc') ==> pc'.h < |fs'.inodes|)
      && (forall k | 0 <= k < |fs.inodes| && (Held(pc) ==> k != pc.h) :: fs'.inodes[k] == fs.inodes[k])
      && fs'.dirs.Keys == fs.dirs.Keys
      && (Held(pc) && Held(pc') ==> pc'.h == pc.h)
      && (!Held(pc) && Held(pc') ==> pc'.h == |fs.inodes|)
  {
  }

  function Start(fs: Fs, jobs: seq<Job>): System {
    System(fs, jobs, seq(|jobs|, _ => Open), [])
  }

  // ---------------------------------------------------------------------------
  // Who shares a temporary name.
  // ---------------------------------------------------------------------------

  predicate IsTemp(jobs: seq<Job>, dir: string, name: string) {
    exists i | 0 <= i < |jobs| :: jobs[i].Replace? && jobs[i].dir == dir && jobs[i].temp == name
  }

  /** No temporary is anyone's target. */
  predicate TempsApart(jobs: seq<Job>) {
    forall i | 0 <= i < |jobs| :: !IsTemp(jobs, jobs[i].dir, jobs[i].name)
  }

  predicate Shares(a: Job, b: Job) {
    a.Replace? && b.Replace? && a.dir == b.dir && a.temp == b.temp
  }

  /** No three callers share one temporary. Two may, and `temporaryNameFor` is there so that none do. */
  predicate AtMostTwoShare(jobs: seq<Job>) {
    forall i, j, k | 0 <= i < |jobs| && 0 <= j < |jobs| && 0 <= k < |jobs| && i != j && j != k && i != k ::
      Shares(jobs[i], jobs[j]) ==> !Shares(jobs[j], jobs[k])
  }

  predicate TempsFit(jobs: seq<Job>) {
    TempsApart(jobs) && AtMostTwoShare(jobs)
  }

  // ---------------------------------------------------------------------------
  // The invariant.
  // ---------------------------------------------------------------------------

  /** The entry under the caller's temporary name. */
  function TempIs(fs: Fs, job: Job): Option<Entry>
    requires job.Replace? && job.dir in fs.dirs
  {
    Get(View(fs.dirs[job.dir]), job.temp)
  }

  /** A temporary that is gone while its caller still holds it was unlinked by a sharer, who is past its own open. */
  predicate PairInv(fs: Fs, a: Job, pcA: Pc, b: Job, pcB: Pc) {
    Shares(a, b) && TempHeld(a, pcA) && a.dir in fs.dirs && TempIs(fs, a) == None ==> !pcB.Open?
  }

  /** What is known of one caller's inode and temporary. */
  predicate CallerInv(fs0: Fs, fs: Fs, job: Job, pc: Pc) {
    && (Held(pc) ==> |fs0.inodes| <= pc.h < |fs.inodes|)
    && (pc.Write? ==> fs.inodes[pc.h].bytes == [])
    && (pc.Sync? ==> fs.inodes[pc.h].bytes == job.bytes)
    && (Complete(job, pc) ==> fs.inodes[pc.h] == Inode(job.bytes, true))
    && (TempHeld(job, pc) ==> job.dir in fs.dirs && TempIs(fs, job) in {None, Some(File(pc.h))})
    && (Landed(job, pc) ==> job.dir in fs.dirs)
    && (pc.Rename? || pc.CatchClose? || pc.CatchUnlink? ==> job.Replace?)
    && (pc.FinallyClose? ==> job.Create? && !pc.got.OnDisk?)
    && (pc.ThrewLanded? && !pc.got.OnDisk? ==> job.Create?)
    && (Unsynced(pc) && pc.got.Written? ==> fs.inodes[pc.h].bytes == job.bytes)
    && (job.Create? && Landed(job, pc) ==> fs.inodes[pc.h].bytes <= job.bytes)
  }

  /** A create whose write or sync failed. */
  predicate Unsynced(pc: Pc) {
    pc.FinallyClose? || (pc.ThrewLanded? && !pc.got.OnDisk?)
  }

  predicate Inv(fs0: Fs, s: System) {
    && WellShaped(s)
    && s.fs.dirs.Keys == fs0.dirs.Keys
    && |fs0.inodes| <= |s.fs.inodes|
    && (forall k | 0 <= k < |fs0.inodes| :: s.fs.inodes[k] == fs0.inodes[k])
    && (forall i | 0 <= i < |s.jobs| :: CallerInv(fs0, s.fs, s.jobs[i], s.pcs[i]))
    && (forall i, j | 0 <= i < j < |s.jobs| :: Held(s.pcs[i]) && Held(s.pcs[j]) ==> s.pcs[i].h != s.pcs[j].h)
    && (forall i, j | 0 <= i < |s.jobs| && 0 <= j < |s.jobs| && i != j ::
          PairInv(s.fs, s.jobs[i], s.pcs[i], s.jobs[j], s.pcs[j]))
    && (forall i | 0 <= i < |s.jobs| :: i in s.order <==> Landed(s.jobs[i], s.pcs[i]))
    && (forall x | 0 <= x < |s.order| :: s.order[x] < |s.jobs|)
    && (forall x, y | 0 <= x < y < |s.order| :: s.order[x] != s.order[y])
  }

  lemma InitInv(fs0: Fs, jobs: seq<Job>)
    ensures Inv(fs0, Start(fs0, jobs))
  {
  }

  /** A call never touches another caller's temporary. */
  lemma OtherTempsStand(fs: Fs, job: Job, pc: Pc, choice: Choice, dir: string, temp: string)
    requires Held(pc) ==> pc.h < |fs.inodes|
    requires dir in fs.dirs
    requires job.dir == dir ==> temp != job.name && (job.Replace? ==> temp != job.temp)
    ensures Get(View(Call(fs, job, pc, choice).0.dirs[dir]), temp) == Get(View(fs.dirs[dir]), temp)
  {
    CallCandidates(fs, job, pc, choice, dir, temp);
    ViewIsLastCandidate(fs.dirs[dir], temp);
    ViewIsLastCandidate(Call(fs, job, pc, choice).0.dirs[dir], temp);
  }

  /** What one call adds to the candidates of a name that is not this caller's temporary. */
  lemma CallCandidates(fs: Fs, job: Job, pc: Pc, choice: Choice, dir: string, name: string)
    requires Held(pc) ==> pc.h < |fs.inodes|
    requires dir in fs.dirs
    requires job.Replace? && job.dir == dir ==> name != job.temp
    ensures
      var (fs', pc') := Call(fs, job, pc, choice);
      var before, after := Candidates(fs.dirs[dir], name), Candidates(fs'.dirs[dir], name);
      if job.dir == dir && Settled(pc') && !Settled(pc) then after == [Last(before)]
      else if job.dir == dir && job.name == name && pc.Open? && pc'.Write? && job.Create? then
        after == before + [Some(File(|fs.inodes|))]
      else if job.dir == dir && job.name == name && pc.Rename? && pc'.OpenDir? && job.Replace? then
        after == before + [Get(View(fs.dirs[dir]), job.temp)]
      else after == before
  {
    hide Candidates, Apply;
    match pc
    case Open =>
      if choice.Works? && job.dir in fs.dirs && !Exists(fs, job.dir, Claimed(job)) {
        LoggedCandidates(fs.(inodes := fs.inodes + [Inode([], false)]), job.dir,
                         AddName(Claimed(job), File(|fs.inodes|)), dir, name);
      }
    case Rename(h) =>
      if choice.Works? && job.Replace? && Exists(fs, job.dir, job.temp) {
        LoggedCandidates(fs, job.dir, SwapName(job.temp, job.name, View(fs.dirs[job.dir])[job.temp]), dir, name);
      }
    case CatchUnlink =>
      if choice.Works? && job.Replace? && Exists(fs, job.dir, job.temp) {
        LoggedCandidates(fs, job.dir, DropName(job.temp), dir, name);
      }
    case SyncDir(h) =>
      if choice.Works? && job.dir in fs.dirs && job.dir == dir {
        SyncedCandidates(fs, dir, name);
      }
    case _ =>
  }

  /** The caller's own half of the invariant, across its own call. */
  lemma OwnOpenKeepsInv(fs0: Fs, fs: Fs, job: Job, choice: Choice)
    requires |fs0.inodes| <= |fs.inodes| && (job.Replace? ==> job.temp != job.name)
    ensures var (fs', pc') := Call(fs, job, Open, choice); CallerInv(fs0, fs', job, pc')
  {
    if choice.Works? && job.dir in fs.dirs && !Exists(fs, job.dir, Claimed(job)) {
      var (fs', pc') := Call(fs, job, Open, choice);
      LoggedCandidates(fs.(inodes := fs.inodes + [Inode([], false)]), job.dir,
                       AddName(Claimed(job), File(|fs.inodes|)), job.dir, Claimed(job));
      ViewIsLastCandidate(fs'.dirs[job.dir], Claimed(job));
    }
    hide Candidates, Replay, Exists;
  }

  lemma OwnBytesKeepInv(fs0: Fs, fs: Fs, job: Job, pc: Pc, choice: Choice)
    requires CallerInv(fs0, fs, job, pc) && |fs0.inodes| <= |fs.inodes|
    requires pc.Write? || pc.Sync? || pc.Close?
    ensures var (fs', pc') := Call(fs, job, pc, choice); CallerInv(fs0, fs', job, pc')
  {
    hide Candidates, Replay, Exists;
  }

  lemma OwnNamesKeepInv(fs0: Fs, fs: Fs, job: Job, pc: Pc, choice: Choice)
    requires CallerInv(fs0, fs, job, pc) && |fs0.inodes| <= |fs.inodes|
    requires !pc.Open? && !pc.Write? && !pc.Sync? && !pc.Close?
    ensures var (fs', pc') := Call(fs, job, pc, choice); CallerInv(fs0, fs', job, pc')
  {
    hide Candidates, Replay, Exists;
  }

  lemma OwnCallKeepsInv(fs0: Fs, fs: Fs, job: Job, pc: Pc, choice: Choice)
    requires CallerInv(fs0, fs, job, pc) && |fs0.inodes| <= |fs.inodes|
    requires job.Replace? ==> job.temp != job.name
    ensures var (fs', pc') := Call(fs, job, pc, choice); CallerInv(fs0, fs', job, pc')
  {
    hide Call;
    if pc.Open? {
      OwnOpenKeepsInv(fs0, fs, job, choice);
    } else if pc.Write? || pc.Sync? || pc.Close? {
      OwnBytesKeepInv(fs0, fs, job, pc, choice);
    } else {
      OwnNamesKeepInv(fs0, fs, job, pc, choice);
    }
    hide CallerInv;
  }

  lemma TempIsNoTarget(jobs: seq<Job>, i: nat, j: nat)
    requires TempsApart(jobs) && i < |jobs| && j < |jobs|
    ensures jobs[j].Replace? && jobs[i].dir == jobs[j].dir ==> jobs[j].temp != jobs[i].name
  {
    assert !IsTemp(jobs, jobs[i].dir, jobs[i].name);
  }

  lemma TempEffects(fs: Fs, job: Job)
    requires job.Replace? && job.temp != job.name
    ensures forall e :: Effect(AddName(job.temp, e), job.temp) == Some(Some(e))
    ensures forall e :: Effect(SwapName(job.temp, job.name, e), job.temp) == Some(None)
    ensures Effect(DropName(job.temp), job.temp) == Some(None)
  {
  }

  /** What a call leaves under its own temporary name. */
  lemma OwnTempAfter(fs: Fs, job: Job, pc: Pc, choice: Choice)
    requires Held(pc) ==> pc.h < |fs.inodes|
    requires job.Replace? && job.dir in fs.dirs && job.temp != job.name
    ensures
      var (fs', pc') := Call(fs, job, pc, choice);
      var before, after := TempIs(fs, job), TempIs(fs', job);
      if pc.Open? && pc'.Write? then before == None && after == Some(File(|fs.inodes|))
      else if pc.Rename? && pc'.OpenDir? then before.Some? && after == None
      else if pc.CatchUnlink? then after in {before, None}
      else after == before
  {
    hide Candidates, Replay, Apply, Effect;
    var (fs', pc') := Call(fs, job, pc, choice);
    CallKeepsInodes(fs, job, pc, choice);
    TempEffects(fs, job);
    ViewIsLastCandidate(fs.dirs[job.dir], job.temp);
    ViewIsLastCandidate(fs'.dirs[job.dir], job.temp);
    match pc
    case Open =>
      if pc'.Write? {
        LoggedCandidates(fs.(inodes := fs.inodes + [Inode([], false)]), job.dir,
                         AddName(job.temp, File(|fs.inodes|)), job.dir, job.temp);
      }
    case Rename(h) =>
      if pc'.OpenDir? {
        var e := SwapName(job.temp, job.name, View(fs.dirs[job.dir])[job.temp]);
        LoggedCandidates(fs, job.dir, e, job.dir, job.temp);
      }
    case CatchUnlink =>
      if choice.Works? && Exists(fs, job.dir, job.temp) {
        LoggedCandidates(fs, job.dir, DropName(job.temp), job.dir, job.temp);
      }
    case SyncDir(h) =>
      if choice.Works? {
        SyncedCandidates(fs, job.dir, job.temp);
      }
    case _ =>
  }

  /** What a call leaves under anybody's temporary, given who shares it. */
  lemma TempAfter(fs0: Fs, s: System, i: nat, j: nat, choice: Choice)
    requires Inv(fs0, s) && TempsFit(s.jobs) && i < |s.jobs| && j < |s.jobs|
    requires s.jobs[j].Replace? && s.jobs[j].dir in s.fs.dirs
    ensures
      var (fs', pc') := Call(s.fs, s.jobs[i], s.pcs[i], choice);
      var before := TempIs(s.fs, s.jobs[j]);
      && s.jobs[j].dir in fs'.dirs
      && var after := TempIs(fs', s.jobs[j]);
         if !Shares(s.jobs[i], s.jobs[j]) then after == before
         else if s.pcs[i].Open? && pc'.Write? then before == None && after == Some(File(|s.fs.inodes|))
         else if s.pcs[i].Rename? && pc'.OpenDir? then before.Some? && after == None
         else if s.pcs[i].CatchUnlink? then after in {before, None}
         else after == before
  {
    CallKeepsInodes(s.fs, s.jobs[i], s.pcs[i], choice);
    TempIsNoTarget(s.jobs, i, j);
    if Shares(s.jobs[i], s.jobs[j]) {
      OwnTempAfter(s.fs, s.jobs[i], s.pcs[i], choice);
    } else {
      OtherTempsStand(s.fs, s.jobs[i], s.pcs[i], choice, s.jobs[j].dir, s.jobs[j].temp);
    }
  }

  /** Everyone else's half, across a call they did not make. */
  lemma OtherCallKeepsInv(fs0: Fs, s: System, i: nat, j: nat, choice: Choice)
    requires Inv(fs0, s) && TempsFit(s.jobs) && i < |s.jobs| && j < |s.jobs| && i != j
    ensures CallerInv(fs0, Call(s.fs, s.jobs[i], s.pcs[i], choice).0, s.jobs[j], s.pcs[j])
  {
    CallKeepsInodes(s.fs, s.jobs[i], s.pcs[i], choice);
    var job, pc := s.jobs[j], s.pcs[j];
    assert CallerInv(fs0, s.fs, job, pc) && CallerInv(fs0, s.fs, s.jobs[i], s.pcs[i]);
    assert PairInv(s.fs, job, pc, s.jobs[i], s.pcs[i]);
    if Held(pc) && Held(s.pcs[i]) {
      assert pc.h != s.pcs[i].h;
    }
    if TempHeld(job, pc) {
      TempAfter(fs0, s, i, j, choice);
    }
  }

  /** A pair's half, whichever of the two moves, or a third. */
  lemma StepKeepsPair(fs0: Fs, s: System, i: nat, choice: Choice, a: nat, b: nat)
    requires Inv(fs0, s) && TempsFit(s.jobs) && i < |s.jobs| && a < |s.jobs| && b < |s.jobs| && a != b
    ensures
      var s' := Step(s, i, choice);
      PairInv(s'.fs, s'.jobs[a], s'.pcs[a], s'.jobs[b], s'.pcs[b])
  {
    var s' := Step(s, i, choice);
    CallKeepsInodes(s.fs, s.jobs[i], s.pcs[i], choice);
    if Shares(s.jobs[a], s.jobs[b]) && TempHeld(s'.jobs[a], s'.pcs[a]) {
      assert CallerInv(fs0, s.fs, s.jobs[a], s.pcs[a]);
      assert PairInv(s.fs, s.jobs[a], s.pcs[a], s.jobs[b], s.pcs[b]);
      if s.jobs[a].dir in s.fs.dirs {
        TempAfter(fs0, s, i, a, choice);
        assert i != a && i != b ==> !Shares(s.jobs[b], s.jobs[i]);
      }
    }
  }

  lemma StepKeepsCallers(fs0: Fs, s: System, i: nat, choice: Choice)
    requires Inv(fs0, s) && TempsFit(s.jobs) && i < |s.jobs|
    ensures
      var s' := Step(s, i, choice);
      forall j | 0 <= j < |s.jobs| :: CallerInv(fs0, s'.fs, s'.jobs[j], s'.pcs[j])
  {
    var s' := Step(s, i, choice);
    assert CallerInv(fs0, s.fs, s.jobs[i], s.pcs[i]);
    hide CallerInv, PairInv;
    forall j | 0 <= j < |s.jobs| ensures CallerInv(fs0, s'.fs, s'.jobs[j], s'.pcs[j]) {
      if j == i {
        TempIsNoTarget(s.jobs, i, i);
        OwnCallKeepsInv(fs0, s.fs, s.jobs[i], s.pcs[i], choice);
      } else {
        OtherCallKeepsInv(fs0, s, i, j, choice);
      }
    }
  }

  /** Every handle is behind an inode there is, and a fresh one is behind a fresh inode. */
  lemma HandlesFit(fs0: Fs, s: System)
    requires Inv(fs0, s)
    ensures forall j | 0 <= j < |s.jobs| :: Held(s.pcs[j]) ==> |fs0.inodes| <= s.pcs[j].h < |s.fs.inodes|
  {
    forall j | 0 <= j < |s.jobs| ensures Held(s.pcs[j]) ==> |fs0.inodes| <= s.pcs[j].h < |s.fs.inodes| {
      assert CallerInv(fs0, s.fs, s.jobs[j], s.pcs[j]);
    }
  }

  lemma StepKeepsInv(fs0: Fs, s: System, i: nat, choice: Choice)
    requires Inv(fs0, s) && TempsFit(s.jobs) && i < |s.jobs|
    ensures Inv(fs0, Step(s, i, choice))
  {
    hide CallerInv, PairInv, Call;
    var s' := Step(s, i, choice);
    CallKeepsInodes(s.fs, s.jobs[i], s.pcs[i], choice);
    CallKeepsLanded(s.fs, s.jobs[i], s.pcs[i], choice);
    HandlesFit(fs0, s);
    StepKeepsCallers(fs0, s, i, choice);
    forall a, b | 0 <= a < |s.jobs| && 0 <= b < |s.jobs| && a != b
      ensures PairInv(s'.fs, s'.jobs[a], s'.pcs[a], s'.jobs[b], s'.pcs[b])
    {
      StepKeepsPair(fs0, s, i, choice, a, b);
    }
  }

  // ---------------------------------------------------------------------------
  // The history of one target.
  // ---------------------------------------------------------------------------

  /** Who has landed on `dir/name`, oldest first. */
  function Landings(jobs: seq<Job>, order: seq<nat>, dir: string, name: string): seq<nat> {
    if order == [] then []
    else
      var rest := Landings(jobs, order[..|order| - 1], dir, name);
      var i := Last(order);
      if i < |jobs| && jobs[i].dir == dir && jobs[i].name == name then rest + [i] else rest
  }

  /** The entry each landing left behind. */
  function Entries(pcs: seq<Pc>, who: seq<nat>): seq<Option<Entry>> {
    seq(|who|, x requires 0 <= x < |who| =>
      if who[x] < |pcs| && Held(pcs[who[x]]) then Some(File(pcs[who[x]].h)) else None)
  }

  lemma {:induction false} LandingsAreExact(jobs: seq<Job>, order: seq<nat>, dir: string, name: string)
    ensures forall i ::
      i in Landings(jobs, order, dir, name) <==>
      i in order && i < |jobs| && jobs[i].dir == dir && jobs[i].name == name
  {
    if order == [] {
    } else {
      LandingsAreExact(jobs, order[..|order| - 1], dir, name);
      assert order == order[..|order| - 1] + [Last(order)];
    }
  }

  lemma LandingsGrow(jobs: seq<Job>, order: seq<nat>, i: nat, dir: string, name: string)
    ensures Landings(jobs, order + [i], dir, name) ==
            Landings(jobs, order, dir, name) +
              (if i < |jobs| && jobs[i].dir == dir && jobs[i].name == name then [i] else [])
  {
    assert (order + [i])[..|order|] == order;
  }

  /** Every entry the target could ever have come back with: the original ones, then each landing's. */
  function Story(fs0: Fs, s: System, dir: string, name: string): seq<Option<Entry>>
    requires dir in fs0.dirs
  {
    Candidates(fs0.dirs[dir], name) + Entries(s.pcs, Landings(s.jobs, s.order, dir, name))
  }

  /** `now` is the story from `k` on, and `k` is past every landing that has been settled. */
  predicate Shows(story: seq<Option<Entry>>, l: seq<nat>, pcs: seq<Pc>, now: seq<Option<Entry>>, k: nat) {
    && k < |story|
    && now == story[k..]
    && (forall x | 0 <= x < |l| :: l[x] < |pcs| && Settled(pcs[l[x]]) ==> |story| - |l| + x <= k)
  }

  /** What a crash may leave now, as a window on the story. */
  predicate Window(fs0: Fs, s: System, dir: string, name: string, k: nat)
    requires dir in fs0.dirs && dir in s.fs.dirs
  {
    Shows(Story(fs0, s, dir, name), Landings(s.jobs, s.order, dir, name), s.pcs, Candidates(s.fs.dirs[dir], name), k)
  }

  lemma ShowsSome(story: seq<Option<Entry>>, l: seq<nat>, pcs: seq<Pc>, now: seq<Option<Entry>>, k: nat)
    requires Shows(story, l, pcs, now, k)
    ensures story != [] && now != []
  {
  }

  /** A directory sync narrows the window to the newest chapter. */
  lemma SyncNarrows(
      story: seq<Option<Entry>>, l: seq<nat>, pcs: seq<Pc>, pcs': seq<Pc>, now: seq<Option<Entry>>, k: nat)
    requires Shows(story, l, pcs, now, k)
    ensures Shows(story, l, pcs', [Last(now)], |story| - 1)
  {
    assert [Last(now)] == story[|story| - 1..];
  }

  /** Any other step leaves the window where it starts, landing or not. */
  lemma StepWidens(story: seq<Option<Entry>>, l: seq<nat>, pcs: seq<Pc>, pcs': seq<Pc>, now: seq<Option<Entry>>,
                   k: nat, i: nat, e: Option<Entry>)
    requires Shows(story, l, pcs, now, k)
    requires forall x | 0 <= x < |l| :: l[x] < |pcs| && (l[x] < |pcs'| && Settled(pcs'[l[x]]) ==> Settled(pcs[l[x]]))
    ensures Shows(story, l, pcs', now, k)
    ensures i < |pcs'| && !Settled(pcs'[i]) ==> Shows(story + [e], l + [i], pcs', now + [e], k)
  {
    assert (story + [e])[k..] == story[k..] + [e];
  }

  predicate LandsOn(s: System, s': System, i: nat, dir: string, name: string)
    requires i < |s.jobs| && i < |s.pcs| && i < |s'.pcs|
  {
    && !Landed(s.jobs[i], s.pcs[i]) && Landed(s.jobs[i], s'.pcs[i])
    && s.jobs[i].dir == dir && s.jobs[i].name == name
  }

  /** What a step does to the history: it only grows, and a landing keeps its inode. */
  ghost predicate Grows(s: System, s': System, i: nat) {
    && i < |s.jobs| == |s.pcs| == |s'.pcs| && s'.jobs == s.jobs
    && s'.order == s.order + (if !Landed(s.jobs[i], s.pcs[i]) && Landed(s.jobs[i], s'.pcs[i]) then [i] else [])
    && (forall j | j in s.order :: j < |s.pcs| && Held(s.pcs[j]) && Held(s'.pcs[j]) && s'.pcs[j].h == s.pcs[j].h)
    && (forall j | 0 <= j < |s.pcs| && j != i :: s'.pcs[j] == s.pcs[j])
    && (Landed(s.jobs[i], s'.pcs[i]) ==> Held(s'.pcs[i]))
  }

  lemma StepGrows(fs0: Fs, s: System, i: nat, choice: Choice)
    requires Inv(fs0, s) && i < |s.jobs|
    ensures Grows(s, Step(s, i, choice), i)
  {
    var s' := Step(s, i, choice);
    CallKeepsLanded(s.fs, s.jobs[i], s.pcs[i], choice);
    forall j | j in s.order
      ensures j < |s.pcs| && Held(s.pcs[j]) && Held(s'.pcs[j]) && s'.pcs[j].h == s.pcs[j].h
    {
      assert Landed(s.jobs[j], s.pcs[j]);
    }
  }

  lemma CallKeepsLanded(fs: Fs, job: Job, pc: Pc, choice: Choice)
    requires Held(pc) ==> pc.h < |fs.inodes|
    ensures var pc' := Call(fs, job, pc, choice).1;
      && (Landed(job, pc) ==> Landed(job, pc') && Held(pc) && Held(pc') && pc'.h == pc.h)
      && (Landed(job, pc') ==> Held(pc'))
  {
  }

  lemma LandingsGrowBy(s: System, s': System, i: nat, dir: string, name: string)
    requires Grows(s, s', i)
    ensures Landings(s'.jobs, s'.order, dir, name) ==
            Landings(s.jobs, s.order, dir, name) + (if LandsOn(s, s', i, dir, name) then [i] else [])
  {
    hide Landings, Landed;
    if !Landed(s.jobs[i], s.pcs[i]) && Landed(s.jobs[i], s'.pcs[i]) {
      assert s'.order == s.order + [i];
      hide Grows;
      LandingsGrow(s.jobs, s.order, i, dir, name);
    } else {
      assert s'.order == s.order;
    }
  }

  lemma GrowsStory(fs0: Fs, s: System, s': System, i: nat, dir: string, name: string)
    requires Grows(s, s', i) && dir in fs0.dirs
    ensures
      var lands := LandsOn(s, s', i, dir, name);
      && Landings(s'.jobs, s'.order, dir, name) ==
           Landings(s.jobs, s.order, dir, name) + (if lands then [i] else [])
      && Story(fs0, s', dir, name) ==
           Story(fs0, s, dir, name) + (if lands then [Some(File(s'.pcs[i].h))] else [])
  {
    hide Landings, Entries, Candidates, Landed, Settled;
    var l := Landings(s.jobs, s.order, dir, name);
    LandingsAreExact(s.jobs, s.order, dir, name);
    LandingsGrowBy(s, s', i, dir, name);
    assert l + [] == l;
    assert forall x | 0 <= x < |l| :: l[x] in l;
    EntriesAgree(s.pcs, s'.pcs, l);
    EntriesGrow(s'.pcs, l, i);
    var original, entries := Candidates(fs0.dirs[dir], name), Entries(s.pcs, l);
    assert (original + entries) + [] == original + entries;
    assert original + (entries + [Some(File(if Held(s'.pcs[i]) then s'.pcs[i].h else 0))]) ==
           (original + entries) + [Some(File(if Held(s'.pcs[i]) then s'.pcs[i].h else 0))];
  }

  lemma EntriesAgree(pcs: seq<Pc>, pcs': seq<Pc>, l: seq<nat>)
    requires |pcs| == |pcs'|
    requires forall x | 0 <= x < |l| ::
      l[x] < |pcs| && Held(pcs[l[x]]) && Held(pcs'[l[x]]) && pcs[l[x]].h == pcs'[l[x]].h
    ensures Entries(pcs', l) == Entries(pcs, l)
  {
  }

  lemma EntriesGrow(pcs: seq<Pc>, l: seq<nat>, i: nat)
    ensures Entries(pcs, l + [i]) ==
            Entries(pcs, l) + [if i < |pcs| && Held(pcs[i]) then Some(File(pcs[i].h)) else None]
  {
  }

  /** A directory sync on `dir`: the step after which the caller's landing cannot be lost. */
  predicate Settles(s: System, s': System, i: nat, dir: string)
    requires i < |s.jobs| && i < |s.pcs| && i < |s'.pcs|
  {
    s.jobs[i].dir == dir && Settled(s'.pcs[i]) && !Settled(s.pcs[i])
  }

  /** The candidates of a target move as the story does, unless a directory sync leaves only the newest. */
  ghost predicate MovesCandidates(s: System, s': System, i: nat, dir: string, name: string)
    requires i < |s.jobs| && i < |s.pcs| && i < |s'.pcs| && dir in s.fs.dirs && dir in s'.fs.dirs
  {
    var before := Candidates(s.fs.dirs[dir], name);
    Candidates(s'.fs.dirs[dir], name) ==
      if Settles(s, s', i, dir) then [Last(before)]
      else before + (if LandsOn(s, s', i, dir, name) && Held(s'.pcs[i]) then [Some(File(s'.pcs[i].h))] else [])
  }

  lemma StepMovesCandidates(fs0: Fs, s: System, i: nat, choice: Choice, dir: string, name: string)
    requires Inv(fs0, s) && i < |s.jobs| && dir in fs0.dirs && !IsTemp(s.jobs, dir, name)
    ensures dir in s.fs.dirs && dir in Step(s, i, choice).fs.dirs
    ensures MovesCandidates(s, Step(s, i, choice), i, dir, name)
  {
    assert CallerInv(fs0, s.fs, s.jobs[i], s.pcs[i]);
    CallKeepsInodes(s.fs, s.jobs[i], s.pcs[i], choice);
    CallCandidates(s.fs, s.jobs[i], s.pcs[i], choice, dir, name);
  }

  lemma KeepsWindow(fs0: Fs, s: System, s': System, i: nat, dir: string, name: string, k: nat) returns (k': nat)
    requires Grows(s, s', i) && dir in fs0.dirs && dir in s.fs.dirs && dir in s'.fs.dirs
    requires MovesCandidates(s, s', i, dir, name)
    requires Settled(s'.pcs[i]) ==> Landed(s.jobs[i], s.pcs[i])
    requires Window(fs0, s, dir, name, k)
    ensures Window(fs0, s', dir, name, k')
  {
    hide Landings, Entries, Candidates, Landed, Settled, Story, Shows;
    GrowsStory(fs0, s, s', i, dir, name);
    var landings := Landings(s.jobs, s.order, dir, name);
    ShowsSome(Story(fs0, s, dir, name), landings, s.pcs, Candidates(s.fs.dirs[dir], name), k);
    var story, l := Story(fs0, s, dir, name), Landings(s.jobs, s.order, dir, name);
    var now := Candidates(s.fs.dirs[dir], name);
    if Settles(s, s', i, dir) {
      k' := |story| - 1;
      SyncNarrows(story, l, s.pcs, s'.pcs, now, k);
      assert story + [] == story && l + [] == l;
    } else {
      k' := k;
      SettledLandings(s, s', i, dir, name);
      var e := if Held(s'.pcs[i]) then Some(File(s'.pcs[i].h)) else None;
      StepWidens(story, l, s.pcs, s'.pcs, now, k, i, e);
      assert story + [] == story && l + [] == l && now + [] == now;
    }
  }

  /** Outside a sync of `dir`, the settled landings are the ones that were settled before. */
  lemma SettledLandings(s: System, s': System, i: nat, dir: string, name: string)
    requires Grows(s, s', i) && !Settles(s, s', i, dir)
    requires Settled(s'.pcs[i]) ==> Landed(s.jobs[i], s.pcs[i])
    ensures
      var l := Landings(s.jobs, s.order, dir, name);
      && (forall x | 0 <= x < |l| :: l[x] < |s.pcs| && (Settled(s'.pcs[l[x]]) ==> Settled(s.pcs[l[x]])))
      && (LandsOn(s, s', i, dir, name) ==> !Settled(s'.pcs[i]))
  {
    var l := Landings(s.jobs, s.order, dir, name);
    LandingsAreExact(s.jobs, s.order, dir, name);
    assert forall x | 0 <= x < |l| :: l[x] in l;
  }

  lemma SettledWasLanded(fs0: Fs, s: System, i: nat, choice: Choice)
    requires Inv(fs0, s) && i < |s.jobs|
    ensures Settled(Step(s, i, choice).pcs[i]) ==> Landed(s.jobs[i], s.pcs[i])
  {
  }

  lemma {:induction false} RunKeeps(fs0: Fs, jobs: seq<Job>, moves: seq<Move>)
    requires TempsFit(jobs)
    ensures Inv(fs0, Run(Start(fs0, jobs), moves))
  {
    var s0 := Start(fs0, jobs);
    if moves == [] {
      InitInv(fs0, jobs);
    } else {
      RunKeeps(fs0, jobs, moves[..|moves| - 1]);
      var before, m := Run(s0, moves[..|moves| - 1]), Last(moves);
      if m.who < |jobs| {
        StepKeepsInv(fs0, before, m.who, m.choice);
      }
    }
  }

  lemma {:induction false} RunHasWindow(fs0: Fs, jobs: seq<Job>, moves: seq<Move>, dir: string, name: string)
    returns (k: nat)
    requires TempsFit(jobs) && dir in fs0.dirs && !IsTemp(jobs, dir, name)
    ensures Inv(fs0, Run(Start(fs0, jobs), moves))
    ensures Window(fs0, Run(Start(fs0, jobs), moves), dir, name, k)
  {
    var s0 := Start(fs0, jobs);
    RunKeeps(fs0, jobs, moves);
    if moves == [] {
      k := 0;
    } else {
      var before, m := Run(s0, moves[..|moves| - 1]), Last(moves);
      RunKeeps(fs0, jobs, moves[..|moves| - 1]);
      k := RunHasWindow(fs0, jobs, moves[..|moves| - 1], dir, name);
      if m.who < |jobs| {
        StepGrows(fs0, before, m.who, m.choice);
        StepMovesCandidates(fs0, before, m.who, m.choice, dir, name);
        SettledWasLanded(fs0, before, m.who, m.choice);
        k := KeepsWindow(fs0, before, Step(before, m.who, m.choice), m.who, dir, name, k);
      }
    }
  }

  // ---------------------------------------------------------------------------
  // Main results. `s` is any reachable state: any number of callers, any interleaving, any faults.
  // ---------------------------------------------------------------------------

  /** What caller `i`'s inode, under its target, may come back as after power is lost. */
  predicate ComesBackAs(s: System, i: nat, dir: string, name: string, c: Content) {
    && i < |s.jobs| && i < |s.pcs|
    && s.jobs[i].dir == dir && s.jobs[i].name == name
    && Landed(s.jobs[i], s.pcs[i])
    && c.Bytes?
    // Only a create has a name before its bytes are synced, and without that they may come back as anything.
    && (s.jobs[i].Replace? || Complete(s.jobs[i], s.pcs[i]) ==> c.bytes == s.jobs[i].bytes)
  }

  /** And what it reads as while the system is up. */
  predicate ReadsNow(s: System, i: nat, dir: string, name: string, c: Content) {
    && ComesBackAs(s, i, dir, name, c)
    && match s.pcs[i]
       case Write(_) => c.bytes == []
       case Sync(_) => c.bytes == s.jobs[i].bytes
       case FinallyClose(_, _) | ThrewLanded(_, _) =>
         // A create whose write failed leaves a part of its bytes.
         if s.pcs[i].got.Partial? then c.bytes <= s.jobs[i].bytes else c.bytes == s.jobs[i].bytes
       case _ => true
  }

  /** Landing `x` on the target returned, or its directory is synced. */
  predicate SettledLanding(s: System, l: seq<nat>, x: nat) {
    x < |l| && l[x] < |s.pcs| && Settled(s.pcs[l[x]])
  }

  /**
   * `c` is what the target could have come back as at the start, while no landing is settled; or it is what
   * one landing comes back as, no landing after it being settled.
   */
  ghost predicate OriginalOrWhole(fs0: Fs, s: System, dir: string, name: string, c: Content) {
    var l := Landings(s.jobs, s.order, dir, name);
    || (Outcome(fs0, dir, name, c) && forall x :: !SettledLanding(s, l, x))
    || exists y :: LastsAs(s, l, dir, name, y, c)
  }

  ghost predicate LastsAs(s: System, l: seq<nat>, dir: string, name: string, y: nat, c: Content) {
    y < |l| && ComesBackAs(s, l[y], dir, name, c) && forall x | y < x :: !SettledLanding(s, l, x)
  }

  /** No entry of a healthy filesystem points at an inode that does not exist. */
  ghost predicate NoDangling(fs: Fs) {
    forall dir, name, e | dir in fs.dirs && e in Candidates(fs.dirs[dir], name) ::
      e.Some? && e.value.File? ==> e.value.ino < |fs.inodes|
  }

  /** Chapter `x` of the story, read: an outcome of the start, or a landing's whole bytes. */
  ghost predicate ChapterReads(fs0: Fs, s: System, dir: string, name: string, x: nat, c: Content)
    requires dir in fs0.dirs
  {
    var n, l := |Candidates(fs0.dirs[dir], name)|, Landings(s.jobs, s.order, dir, name);
    if x < n then Outcome(fs0, dir, name, c)
    else x - n < |l| && l[x - n] in s.order && ComesBackAs(s, l[x - n], dir, name, c)
  }

  lemma StoryReads(fs0: Fs, s: System, dir: string, name: string, x: nat, c: Content)
    requires NoDangling(fs0) && Inv(fs0, s) && dir in fs0.dirs
    requires x < |Story(fs0, s, dir, name)| && EntryReads(s.fs.inodes, Story(fs0, s, dir, name)[x], c)
    ensures ChapterReads(fs0, s, dir, name, x, c)
  {
    var original, l := Candidates(fs0.dirs[dir], name), Landings(s.jobs, s.order, dir, name);
    if x < |original| {
      OriginalReads(fs0, s.fs, dir, name, original[x], c);
    } else {
      assert l[x - |original|] in l;
      LandingReads(fs0, s, dir, name, l[x - |original|], c);
    }
  }

  lemma OriginalReads(fs0: Fs, fs: Fs, dir: string, name: string, e: Option<Entry>, c: Content)
    requires NoDangling(fs0) && dir in fs0.dirs && e in Candidates(fs0.dirs[dir], name)
    requires |fs0.inodes| <= |fs.inodes|
    requires forall k | 0 <= k < |fs0.inodes| :: fs.inodes[k] == fs0.inodes[k]
    requires EntryReads(fs.inodes, e, c)
    ensures Outcome(fs0, dir, name, c)
  {
    assert EntryReads(fs0.inodes, e, c);
  }

  lemma LandingReads(fs0: Fs, s: System, dir: string, name: string, i: nat, c: Content)
    requires Inv(fs0, s) && i in Landings(s.jobs, s.order, dir, name)
    requires i < |s.pcs| && Held(s.pcs[i]) ==> EntryReads(s.fs.inodes, Some(File(s.pcs[i].h)), c)
    ensures i in s.order && ComesBackAs(s, i, dir, name, c)
  {
    LandingsAreExact(s.jobs, s.order, dir, name);
    assert CallerInv(fs0, s.fs, s.jobs[i], s.pcs[i]);
  }

  /**
   * Power may be lost at any point of any interleaving, keeping any subset of what was not synced: a target
   * comes back as it could have at the start, or as the whole bytes of one caller, and not as anything that
   * a caller who has returned replaced.
   */
  lemma CrashLeavesWholeFile(fs0: Fs, jobs: seq<Job>, moves: seq<Move>, crashed: Fs, dir: string, name: string)
    requires NoDangling(fs0) && TempsFit(jobs) && !IsTemp(jobs, dir, name)
    requires CrashesTo(Run(Start(fs0, jobs), moves).fs, crashed)
    ensures OriginalOrWhole(fs0, Run(Start(fs0, jobs), moves), dir, name, Read(crashed, dir, name))
  {
    RunReaches(fs0, jobs, moves, dir, name);
    ReachedCrash(fs0, Run(Start(fs0, jobs), moves), crashed, dir, name);
  }

  /** Everything a run establishes about one target. */
  ghost predicate Reached(fs0: Fs, s: System, dir: string, name: string) {
    && Inv(fs0, s)
    && (dir in fs0.dirs ==> dir in s.fs.dirs && exists k: nat :: Window(fs0, s, dir, name, k))
  }

  lemma RunReaches(fs0: Fs, jobs: seq<Job>, moves: seq<Move>, dir: string, name: string)
    requires TempsFit(jobs) && !IsTemp(jobs, dir, name)
    ensures Reached(fs0, Run(Start(fs0, jobs), moves), dir, name)
  {
    RunKeeps(fs0, jobs, moves);
    if dir in fs0.dirs {
      var k := RunHasWindow(fs0, jobs, moves, dir, name);
    }
  }

  lemma ReachedCrash(fs0: Fs, s: System, crashed: Fs, dir: string, name: string)
    requires NoDangling(fs0) && Reached(fs0, s, dir, name) && CrashesTo(s.fs, crashed)
    ensures OriginalOrWhole(fs0, s, dir, name, Read(crashed, dir, name))
  {
    if dir in fs0.dirs {
      var k: nat :| Window(fs0, s, dir, name, k);
      var x := CrashChapter(fs0, s, crashed, dir, name, k);
      ChapterIsLate(fs0, s, dir, name, k, x, Read(crashed, dir, name));
    } else {
      CrashIsOutcome(s.fs, crashed, dir, name);
      NothingLandsOutside(fs0, s, dir, name);
    }
  }

  lemma NothingLandsOutside(fs0: Fs, s: System, dir: string, name: string)
    requires Inv(fs0, s) && dir !in fs0.dirs
    ensures Landings(s.jobs, s.order, dir, name) == []
  {
    var l := Landings(s.jobs, s.order, dir, name);
    LandingsAreExact(s.jobs, s.order, dir, name);
    if l != [] {
      assert l[0] in l;
      CreatedInDirectory(fs0, s, l[0]);
    }
  }

  /** A chapter inside the window is later than every settled landing's, or that landing's own. */
  lemma ChapterIsLate(fs0: Fs, s: System, dir: string, name: string, k: nat, x: nat, c: Content)
    requires dir in fs0.dirs && dir in s.fs.dirs && Window(fs0, s, dir, name, k)
    requires k <= x < |Story(fs0, s, dir, name)| && ChapterReads(fs0, s, dir, name, x, c)
    ensures OriginalOrWhole(fs0, s, dir, name, c)
  {
    hide Outcome, ComesBackAs, Candidates, Landings, Settled;
    var n, l := |Candidates(fs0.dirs[dir], name)|, Landings(s.jobs, s.order, dir, name);
    if x >= n {
      assert LastsAs(s, l, dir, name, x - n, c);
    }
  }

  /** The chapter a crash brings back, and what it reads as. */
  lemma CrashChapter(fs0: Fs, s: System, crashed: Fs, dir: string, name: string, k: nat) returns (x: nat)
    requires NoDangling(fs0) && Inv(fs0, s) && dir in fs0.dirs && Window(fs0, s, dir, name, k)
    requires CrashesTo(s.fs, crashed)
    ensures k <= x < |Story(fs0, s, dir, name)|
    ensures ChapterReads(fs0, s, dir, name, x, Read(crashed, dir, name))
  {
    var c := Read(crashed, dir, name);
    CrashIsOutcome(s.fs, crashed, dir, name);
    x := OutcomeChapter(fs0, s, dir, name, k, c);
    StoryReads(fs0, s, dir, name, x, c);
  }

  /** Where in the story a crash outcome comes from. */
  lemma OutcomeChapter(fs0: Fs, s: System, dir: string, name: string, k: nat, c: Content) returns (x: nat)
    requires dir in fs0.dirs && dir in s.fs.dirs && Window(fs0, s, dir, name, k)
    requires Outcome(s.fs, dir, name, c)
    ensures k <= x < |Story(fs0, s, dir, name)| && EntryReads(s.fs.inodes, Story(fs0, s, dir, name)[x], c)
  {
    var now, story := Candidates(s.fs.dirs[dir], name), Story(fs0, s, dir, name);
    var e :| e in now && EntryReads(s.fs.inodes, e, c);
    var y: nat :| y < |now| && now[y] == e;
    x := k + y;
    assert story[k..][y] == story[x];
  }

  // ---------------------------------------------------------------------------
  // Racing creates.
  // ---------------------------------------------------------------------------

  /** Only the first landing on a path can be a create, and only where nothing was there before. */
  predicate CreatesAreFirst(fs0: Fs, s: System, dir: string, name: string) {
    var l := Landings(s.jobs, s.order, dir, name);
    forall x | 0 <= x < |l| :: l[x] < |s.jobs| && s.jobs[l[x]].Create? ==> x == 0 && !Exists(fs0, dir, name)
  }

  lemma StepKeepsCreates(fs0: Fs, s: System, i: nat, choice: Choice, dir: string, name: string, k: nat)
    requires Inv(fs0, s) && i < |s.jobs| && dir in fs0.dirs && Window(fs0, s, dir, name, k)
    requires CreatesAreFirst(fs0, s, dir, name)
    ensures CreatesAreFirst(fs0, Step(s, i, choice), dir, name)
  {
    var s' := Step(s, i, choice);
    StepGrows(fs0, s, i, choice);
    LandingsGrowBy(s, s', i, dir, name);
    if LandsOn(s, s', i, dir, name) && s.jobs[i].Create? {
      CreateIsFirst(fs0, s, i, choice, dir, name, k);
    }
    hide Window, Inv, Landings, Step, Exists, LandsOn;
  }

  /** A create lands only where nothing has landed and nothing was. */
  lemma CreateIsFirst(fs0: Fs, s: System, i: nat, choice: Choice, dir: string, name: string, k: nat)
    requires Inv(fs0, s) && i < |s.jobs| && s.jobs[i].Create? && dir in fs0.dirs && Window(fs0, s, dir, name, k)
    requires LandsOn(s, Step(s, i, choice), i, dir, name)
    ensures Landings(s.jobs, s.order, dir, name) == [] && !Exists(fs0, dir, name)
  {
    assert CallerInv(fs0, s.fs, s.jobs[i], s.pcs[i]);
    CreateNeedsAbsence(s.fs, s.jobs[i], s.pcs[i], choice);
    hide Call, View, CallerInv, PairInv, Landed, Window, Landings;
    NothingThere(fs0, s, dir, name, k);
  }

  /** A name that is absent now never had anything: no entry ever goes away. */
  lemma NothingThere(fs0: Fs, s: System, dir: string, name: string, k: nat)
    requires Inv(fs0, s) && dir in fs0.dirs && Window(fs0, s, dir, name, k) && !Exists(s.fs, dir, name)
    ensures Landings(s.jobs, s.order, dir, name) == [] && !Exists(fs0, dir, name)
  {
    ViewIsLastCandidate(s.fs.dirs[dir], name);
    ViewIsLastCandidate(fs0.dirs[dir], name);
    StoryEndsLanded(fs0, s, dir, name);
    hide Inv, Candidates, Landings, View;
    var story := Story(fs0, s, dir, name);
    assert Last(story) == Last(story[k..]) == None;
  }

  lemma StoryEndsLanded(fs0: Fs, s: System, dir: string, name: string)
    requires Inv(fs0, s) && dir in fs0.dirs
    ensures Landings(s.jobs, s.order, dir, name) != [] ==> Last(Story(fs0, s, dir, name)).Some?
  {
    var l := Landings(s.jobs, s.order, dir, name);
    LandingsAreExact(s.jobs, s.order, dir, name);
    if l != [] {
      assert Last(l) in l;
      assert Last(Story(fs0, s, dir, name)) == Last(Entries(s.pcs, l));
    }
  }

  lemma CreateNeedsAbsence(fs: Fs, job: Job, pc: Pc, choice: Choice)
    requires Held(pc) ==> pc.h < |fs.inodes|
    requires job.Create? && !Landed(job, pc) && Landed(job, Call(fs, job, pc, choice).1)
    requires !pc.Rename? && !pc.CatchClose? && !pc.CatchUnlink?
    ensures !Exists(fs, job.dir, job.name)
  {
  }

  lemma {:induction false} RunKeepsCreates(fs0: Fs, jobs: seq<Job>, moves: seq<Move>, dir: string, name: string)
    requires TempsFit(jobs) && dir in fs0.dirs && !IsTemp(jobs, dir, name)
    ensures CreatesAreFirst(fs0, Run(Start(fs0, jobs), moves), dir, name)
  {
    if moves == [] {
    } else {
      var before, m := Run(Start(fs0, jobs), moves[..|moves| - 1]), Last(moves);
      RunKeepsCreates(fs0, jobs, moves[..|moves| - 1], dir, name);
      RunKeeps(fs0, jobs, moves[..|moves| - 1]);
      if m.who < |jobs| {
        var k := RunHasWindow(fs0, jobs, moves[..|moves| - 1], dir, name);
        StepKeepsCreates(fs0, before, m.who, m.choice, dir, name, k);
      }
    }
  }

  /**
   * Of any number of racing creates on one path at most one ever holds it, none does where a file
   * or a symbolic link stood before, and no byte that existed before is written by anybody.
   */
  lemma AtMostOneCreate(fs0: Fs, jobs: seq<Job>, moves: seq<Move>, i: nat, j: nat)
    requires TempsFit(jobs) && i < |jobs| && j < |jobs|
    requires jobs[i].Create? && jobs[j].Create? && jobs[i].dir == jobs[j].dir && jobs[i].name == jobs[j].name
    ensures
      var s := Run(Start(fs0, jobs), moves);
      && |s.pcs| == |jobs|
      && (Landed(jobs[i], s.pcs[i]) ==> !Exists(fs0, jobs[i].dir, jobs[i].name))
      && (Landed(jobs[i], s.pcs[i]) && Landed(jobs[j], s.pcs[j]) ==> i == j)
      && |fs0.inodes| <= |s.fs.inodes| && s.fs.inodes[..|fs0.inodes|] == fs0.inodes
  {
    var s, dir, name := Run(Start(fs0, jobs), moves), jobs[i].dir, jobs[i].name;
    RunKeeps(fs0, jobs, moves);
    CreatedInDirectory(fs0, s, i);
    CreatedInDirectory(fs0, s, j);
    if dir in fs0.dirs {
      RunKeepsCreates(fs0, jobs, moves, dir, name);
      LandingsAreExact(jobs, s.order, dir, name);
    }
  }

  lemma CreatedInDirectory(fs0: Fs, s: System, i: nat)
    requires Inv(fs0, s) && i < |s.jobs|
    ensures Landed(s.jobs[i], s.pcs[i]) ==> s.jobs[i].dir in fs0.dirs && i in s.order
  {
    assert CallerInv(fs0, s.fs, s.jobs[i], s.pcs[i]);
  }

  // ---------------------------------------------------------------------------
  // Who wins, and what a return promises.
  // ---------------------------------------------------------------------------

  /**
   * In every interleaving a target holds the entry of the last caller to land on it, and reads as
   * that caller's whole bytes; while nobody has landed, failed callers included, it reads as before.
   */
  lemma LastLandingWins(fs0: Fs, jobs: seq<Job>, moves: seq<Move>, dir: string, name: string)
    requires NoDangling(fs0) && TempsFit(jobs) && !IsTemp(jobs, dir, name)
    ensures
      var s := Run(Start(fs0, jobs), moves);
      var l := Landings(jobs, s.order, dir, name);
      if l == [] then Read(s.fs, dir, name) == Read(fs0, dir, name)
      else ReadsNow(s, Last(l), dir, name, Read(s.fs, dir, name))
  {
    RunReaches(fs0, jobs, moves, dir, name);
    ReachedRead(fs0, Run(Start(fs0, jobs), moves), dir, name);
  }

  /** The newest landing's inode is the one the name has, with the bytes it has now. */
  lemma LandingReadsNow(fs0: Fs, s: System, dir: string, name: string)
    requires Inv(fs0, s) && dir in fs0.dirs && dir in s.fs.dirs
    requires Landings(s.jobs, s.order, dir, name) != []
    requires Get(View(s.fs.dirs[dir]), name) == Last(Story(fs0, s, dir, name))
    ensures ReadsNow(s, Last(Landings(s.jobs, s.order, dir, name)), dir, name, Read(s.fs, dir, name))
  {
    var l := Landings(s.jobs, s.order, dir, name);
    var i := Last(l);
    LandingsAreExact(s.jobs, s.order, dir, name);
    assert i in l;
    assert CallerInv(fs0, s.fs, s.jobs[i], s.pcs[i]);
    assert Last(Story(fs0, s, dir, name)) == Last(Entries(s.pcs, l));
    hide Landings, Story, Candidates, Replay;
  }

  lemma ReachedRead(fs0: Fs, s: System, dir: string, name: string)
    requires NoDangling(fs0) && Reached(fs0, s, dir, name)
    ensures
      var l := Landings(s.jobs, s.order, dir, name);
      if l == [] then Read(s.fs, dir, name) == Read(fs0, dir, name)
      else ReadsNow(s, Last(l), dir, name, Read(s.fs, dir, name))
  {
    var l := Landings(s.jobs, s.order, dir, name);
    if dir in fs0.dirs {
      var k: nat :| Window(fs0, s, dir, name, k);
      var story := Story(fs0, s, dir, name);
      NewestChapterIsNow(fs0, s, dir, name, k);
      if l == [] {
        ReadDependsOnEntry(fs0, s.fs, dir, name);
      } else {
        StoryReads(fs0, s, dir, name, |story| - 1, Read(s.fs, dir, name));
        LandingReadsNow(fs0, s, dir, name);
      }
    } else if l != [] {
      LandingsAreExact(s.jobs, s.order, dir, name);
      assert Last(l) in l;
      CreatedInDirectory(fs0, s, Last(l));
    }
  }

  lemma NewestChapterIsNow(fs0: Fs, s: System, dir: string, name: string, k: nat)
    requires dir in fs0.dirs && dir in s.fs.dirs && Window(fs0, s, dir, name, k)
    ensures
      var story := Story(fs0, s, dir, name);
      && Get(View(s.fs.dirs[dir]), name) == Last(story)
      && EntryReads(s.fs.inodes, Last(story), Read(s.fs, dir, name))
      && (Landings(s.jobs, s.order, dir, name) == [] ==> Last(story) == Get(View(fs0.dirs[dir]), name))
  {
    var story := Story(fs0, s, dir, name);
    ViewIsLastCandidate(s.fs.dirs[dir], name);
    ViewIsLastCandidate(fs0.dirs[dir], name);
    assert Last(story[k..]) == Last(story);
  }

  lemma ReadDependsOnEntry(fs0: Fs, fs: Fs, dir: string, name: string)
    requires dir in fs0.dirs && dir in fs.dirs && NoDangling(fs0) && |fs0.inodes| <= |fs.inodes|
    requires forall k | 0 <= k < |fs0.inodes| :: fs.inodes[k] == fs0.inodes[k]
    requires Get(View(fs.dirs[dir]), name) == Get(View(fs0.dirs[dir]), name)
    ensures Read(fs, dir, name) == Read(fs0, dir, name)
  {
    ViewIsLastCandidate(fs0.dirs[dir], name);
    assert Last(Candidates(fs0.dirs[dir], name)) in Candidates(fs0.dirs[dir], name);
  }

  /** `i` is landing number `x` on its own target, and `c` is the bytes of landing number `y >= x`. */
  predicate BytesNoOlderThan(s: System, i: nat, x: nat, y: nat, c: Content) {
    && i < |s.jobs|
    && var l := Landings(s.jobs, s.order, s.jobs[i].dir, s.jobs[i].name);
       x <= y < |l| && l[x] == i && l[y] < |s.jobs| && c == Bytes(s.jobs[l[y]].bytes)
  }

  /**
   * Once a call has returned normally no crash brings back what it replaced: the target comes back
   * as the whole bytes of that caller or of one that landed after it.
   */
  lemma ReturnIsDurable(fs0: Fs, jobs: seq<Job>, moves: seq<Move>, i: nat, crashed: Fs)
    requires NoDangling(fs0) && TempsFit(jobs) && i < |jobs|
    requires Run(Start(fs0, jobs), moves).pcs[i].Returned?
    requires CrashesTo(Run(Start(fs0, jobs), moves).fs, crashed)
    ensures exists x, y ::
              BytesNoOlderThan(Run(Start(fs0, jobs), moves), i, x, y, Read(crashed, jobs[i].dir, jobs[i].name))
  {
    var s, dir, name := Run(Start(fs0, jobs), moves), jobs[i].dir, jobs[i].name;
    RunReaches(fs0, jobs, moves, dir, name);
    CreatedInDirectory(fs0, s, i);
    RunKeepsCreates(fs0, jobs, moves, dir, name);
    ReachedReturn(fs0, s, i, crashed);
  }

  lemma ReachedReturn(fs0: Fs, s: System, i: nat, crashed: Fs)
    requires NoDangling(fs0) && i < |s.jobs| == |s.pcs|
    requires Reached(fs0, s, s.jobs[i].dir, s.jobs[i].name) && s.jobs[i].dir in fs0.dirs
    requires CreatesAreFirst(fs0, s, s.jobs[i].dir, s.jobs[i].name)
    requires s.pcs[i].Returned? && CrashesTo(s.fs, crashed)
    ensures exists x, y :: BytesNoOlderThan(s, i, x, y, Read(crashed, s.jobs[i].dir, s.jobs[i].name))
  {
    hide Inv, Window, ChapterReads, ComesBackAs, CreatesAreFirst, BytesNoOlderThan, NoDangling, CrashesTo;
    var dir, name := s.jobs[i].dir, s.jobs[i].name;
    var k: nat :| Window(fs0, s, dir, name, k);
    var x := SettledIsBehind(fs0, s, i, k);
    var chapter := CrashChapter(fs0, s, crashed, dir, name, k);
    LateChapter(fs0, s, dir, name, chapter, Read(crashed, dir, name));
    LateBytes(fs0, s, i, x, chapter - |Candidates(fs0.dirs[dir], name)|, Read(crashed, dir, name));
  }

  /** Past the original entries, a chapter is a landing. */
  lemma LateChapter(fs0: Fs, s: System, dir: string, name: string, x: nat, c: Content)
    requires dir in fs0.dirs && |Candidates(fs0.dirs[dir], name)| <= x && ChapterReads(fs0, s, dir, name, x, c)
    ensures
      var y, l := x - |Candidates(fs0.dirs[dir], name)|, Landings(s.jobs, s.order, dir, name);
      y < |l| && ComesBackAs(s, l[y], dir, name, c)
  {
  }

  lemma SettledIsBehind(fs0: Fs, s: System, i: nat, k: nat) returns (x: nat)
    requires Inv(fs0, s) && i < |s.jobs| && s.jobs[i].dir in fs0.dirs && s.pcs[i].Returned?
    requires Window(fs0, s, s.jobs[i].dir, s.jobs[i].name, k)
    ensures
      var l := Landings(s.jobs, s.order, s.jobs[i].dir, s.jobs[i].name);
      x < |l| && l[x] == i && |Candidates(fs0.dirs[s.jobs[i].dir], s.jobs[i].name)| + x <= k
  {
    var l := Landings(s.jobs, s.order, s.jobs[i].dir, s.jobs[i].name);
    LandingsAreExact(s.jobs, s.order, s.jobs[i].dir, s.jobs[i].name);
    CreatedInDirectory(fs0, s, i);
    assert i in l;
    x :| x < |l| && l[x] == i;
  }

  lemma LateBytes(fs0: Fs, s: System, i: nat, x: nat, y: nat, c: Content)
    requires i < |s.jobs| == |s.pcs| && s.pcs[i].Returned?
    requires CreatesAreFirst(fs0, s, s.jobs[i].dir, s.jobs[i].name)
    requires
      var l := Landings(s.jobs, s.order, s.jobs[i].dir, s.jobs[i].name);
      x <= y < |l| && l[x] == i && ComesBackAs(s, l[y], s.jobs[i].dir, s.jobs[i].name, c)
    ensures BytesNoOlderThan(s, i, x, y, c)
  {
  }
}
