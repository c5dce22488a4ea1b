/**
 * `packages/atomic-write` as one process runs it: the two exported functions as code over a
 * mutable filesystem, proved to be runs of the step machine and so to keep its promises.
 */
module AtomicWriteCalls {
  import opened Base
  import opened FileSystem
  import AW = AtomicWrite

  /** The environment's answer to each system call; a program passes each of its points at most once. */
  type Environment = AW.Pc -> AW.Choice

  /** A lone caller has made `moves` from `fs0` and is at `pc`, with the filesystem at `fs`. */
  ghost predicate Alone(fs0: Fs, job: AW.Job, moves: seq<AW.Move>, fs: Fs, pc: AW.Pc) {
    var s := AW.Run(AW.Start(fs0, [job]), moves);
    s.fs == fs && s.pcs == [pc]
  }

  lemma Begin(fs0: Fs, job: AW.Job)
    ensures Alone(fs0, job, [], fs0, AW.Open)
  {
  }

  lemma Advance(fs0: Fs, job: AW.Job, moves: seq<AW.Move>, fs: Fs, pc: AW.Pc, env: Environment)
      returns (moves': seq<AW.Move>, pc': AW.Pc)
    requires Alone(fs0, job, moves, fs, pc)
    ensures AW.Held(pc) ==> pc.h < |fs.inodes|
    ensures moves' == moves + [AW.Move(0, env(pc))]
    ensures pc' == AW.Call(fs, job, pc, env(pc)).1
    ensures Alone(fs0, job, moves', AW.Call(fs, job, pc, env(pc)).0, pc')
    ensures AW.Held(pc') ==> pc'.h < |AW.Call(fs, job, pc, env(pc)).0.inodes|
  {
    assert AW.Held(pc) ==> [pc][0].h < |fs.inodes|;
    hide AW.Call, AW.Landed;
    moves', pc' := moves + [AW.Move(0, env(pc))], AW.Call(fs, job, pc, env(pc)).1;
    assert moves'[..|moves|] == moves;
    AW.CallKeepsInodes(fs, job, pc, env(pc));
  }

  /** What a lone `replaceFileAtomically` has promised when it stops. */
  ghost predicate ReplacePromise(fs0: Fs, job: AW.Job, moves: seq<AW.Move>, fs: Fs, ok: bool)
    requires job.Replace?
  {
    && AW.Run(AW.Start(fs0, [job]), moves).fs == fs
    // Power lost at any call of the run: the old contents as they could have come back, or all the new bytes.
    && (forall n, crashed | 0 <= n <= |moves| && CrashesTo(AW.Run(AW.Start(fs0, [job]), moves[..n]).fs, crashed) ::
          var c := Read(crashed, job.dir, job.name);
          Outcome(fs0, job.dir, job.name, c) || c == Bytes(job.bytes))
    // After a normal return the old contents are gone for good.
    && (ok ==> forall crashed | CrashesTo(fs, crashed) :: Read(crashed, job.dir, job.name) == Bytes(job.bytes))
    && (ok ==> Read(fs, job.dir, job.name) == Bytes(job.bytes))
    // A throw leaves the old contents, or the new ones where the throw came after the rename.
    && (!ok ==> Read(fs, job.dir, job.name) == Read(fs0, job.dir, job.name)
                || Read(fs, job.dir, job.name) == Bytes(job.bytes))
  }

  lemma AloneIsDistinct(job: AW.Job)
    requires job.Replace? ==> job.temp != job.name
    ensures AW.TempsFit([job]) && !AW.IsTemp([job], job.dir, job.name)
  {
  }

  lemma ReplaceKeepsPromise(fs0: Fs, job: AW.Job, moves: seq<AW.Move>, fs: Fs, pc: AW.Pc)
    requires AW.NoDangling(fs0) && job.Replace? && job.temp != job.name
    requires Alone(fs0, job, moves, fs, pc) && AW.Finished(pc)
    ensures ReplacePromise(fs0, job, moves, fs, pc.Returned?)
  {
    AloneIsDistinct(job);
    forall n, crashed | 0 <= n <= |moves| && CrashesTo(AW.Run(AW.Start(fs0, [job]), moves[..n]).fs, crashed)
      ensures Outcome(fs0, job.dir, job.name, Read(crashed, job.dir, job.name))
              || Read(crashed, job.dir, job.name) == Bytes(job.bytes)
    {
      AW.CrashLeavesWholeFile(fs0, [job], moves[..n], crashed, job.dir, job.name);
    }
    if pc.Returned? {
      forall crashed | CrashesTo(fs, crashed)
        ensures Read(crashed, job.dir, job.name) == Bytes(job.bytes)
      {
        AW.ReturnIsDurable(fs0, [job], moves, 0, crashed);
      }
      AW.RunKeeps(fs0, [job], moves);
    }
    AW.LastLandingWins(fs0, [job], moves, job.dir, job.name);
    if pc.Returned? {
      ReturnedHasLanded(fs0, job, moves, fs, pc);
    }
  }

  lemma ReturnedHasLanded(fs0: Fs, job: AW.Job, moves: seq<AW.Move>, fs: Fs, pc: AW.Pc)
    requires (job.Replace? ==> job.temp != job.name) && Alone(fs0, job, moves, fs, pc) && pc.Returned?
    ensures AW.Landings([job], AW.Run(AW.Start(fs0, [job]), moves).order, job.dir, job.name) != []
  {
    AloneIsDistinct(job);
    var s := AW.Run(AW.Start(fs0, [job]), moves);
    AW.RunKeeps(fs0, [job], moves);
    AW.LandingsAreExact([job], s.order, job.dir, job.name);
    assert 0 in s.order;
  }

  /** What a lone `createFileExclusively` has promised when it stops. */
  ghost predicate CreatePromise(fs0: Fs, job: AW.Job, moves: seq<AW.Move>, fs: Fs, ok: bool)
    requires job.Create?
  {
    && AW.Run(AW.Start(fs0, [job]), moves).fs == fs
    // Nothing that stood under the name, a dangling symbolic link included, is ever written or replaced.
    && (Exists(fs0, job.dir, job.name) ==> !ok && Read(fs, job.dir, job.name) == Read(fs0, job.dir, job.name))
    && |fs0.inodes| <= |fs.inodes| && fs.inodes[..|fs0.inodes|] == fs0.inodes
    && (ok ==> forall crashed | CrashesTo(fs, crashed) :: Read(crashed, job.dir, job.name) == Bytes(job.bytes))
  }

  lemma CreateKeepsPromise(fs0: Fs, job: AW.Job, moves: seq<AW.Move>, fs: Fs, pc: AW.Pc)
    requires AW.NoDangling(fs0) && job.Create?
    requires Alone(fs0, job, moves, fs, pc)
    ensures CreatePromise(fs0, job, moves, fs, pc.Returned?)
  {
    AloneIsDistinct(job);
    AW.AtMostOneCreate(fs0, [job], moves, 0, 0);
    if Exists(fs0, job.dir, job.name) {
      CreateLeavesOld(fs0, job, moves, fs, pc);
    }
    if pc.Returned? {
      forall crashed | CrashesTo(fs, crashed)
        ensures Read(crashed, job.dir, job.name) == Bytes(job.bytes)
      {
        AW.ReturnIsDurable(fs0, [job], moves, 0, crashed);
      }
    }
    hide AW.Run, AW.Landed, CrashesTo, Read, Exists;
  }

  lemma LandersAreOrdered(job: AW.Job, order: seq<nat>)
    ensures AW.Landings([job], order, job.dir, job.name) != [] ==> 0 in order
  {
    AW.LandingsAreExact([job], order, job.dir, job.name);
    if AW.Landings([job], order, job.dir, job.name) != [] {
      assert Last(AW.Landings([job], order, job.dir, job.name)) in order;
    }
  }

  /** Over a name that is taken, a create never lands. */
  lemma CreateLeavesOld(fs0: Fs, job: AW.Job, moves: seq<AW.Move>, fs: Fs, pc: AW.Pc)
    requires AW.NoDangling(fs0) && job.Create? && Exists(fs0, job.dir, job.name)
    requires Alone(fs0, job, moves, fs, pc)
    ensures !pc.Returned? && Read(fs, job.dir, job.name) == Read(fs0, job.dir, job.name)
  {
    AloneIsDistinct(job);
    var s := AW.Run(AW.Start(fs0, [job]), moves);
    AW.AtMostOneCreate(fs0, [job], moves, 0, 0);
    AW.LastLandingWins(fs0, [job], moves, job.dir, job.name);
    AW.RunKeeps(fs0, [job], moves);
    LandersAreOrdered(job, s.order);
    hide AW.Run, AW.Landings, Read, Exists, AW.NoDangling, AW.CallerInv, AW.PairInv;
  }

  /** The three calls of `syncDirectory` work. */
  predicate DirCallsWork(env: Environment, h: nat) {
    env(AW.OpenDir(h)).Works? && env(AW.SyncDir(h)).Works? && env(AW.CloseDir(h, true)).Works?
  }

  /** Every call up to the close works, on the inode `h` that the first one makes. */
  predicate FileCallsWork(env: Environment, h: nat) {
    env(AW.Open).Works? && env(AW.Write(h)).Works? && env(AW.Sync(h)).Works? && env(AW.Close(h)).Works?
  }

  lemma CreatedExists(fs: Fs, dir: string, name: string)
    requires dir in fs.dirs && !Exists(fs, dir, name)
    ensures Exists(CreateExclusive(fs, dir, name), dir, name)
  {
    var d, op := fs.dirs[dir], AddName(name, File(|fs.inodes|));
    ReplayStep(d.durable, d.log, op);
  }

  lemma RemovedIsGone(fs: Fs, dir: string, name: string)
    requires Exists(fs, dir, name)
    ensures !Exists(Remove(fs, dir, name), dir, name)
  {
    var d := fs.dirs[dir];
    ReplayStep(d.durable, d.log, DropName(name));
  }

  lemma RenamedIsGone(fs: Fs, dir: string, src: string, dst: string)
    requires Exists(fs, dir, src) && src != dst
    ensures !Exists(RenameEntry(fs, dir, src, dst), dir, src)
  {
    var d := fs.dirs[dir];
    ReplayStep(d.durable, d.log, SwapName(src, dst, View(d)[src]));
  }

  lemma SyncKeepsNames(fs: Fs, dir: string, name: string)
    requires dir in fs.dirs
    ensures Exists(SyncDirectory(fs, dir), dir, name) <==> Exists(fs, dir, name)
  {
    var m := View(fs.dirs[dir]);
    assert Replay(m, []) == m;
  }

  /** Existence is a matter of directories only. */
  lemma SameNames(fs: Fs, fs': Fs, dir: string, name: string)
    requires fs'.dirs == fs.dirs
    ensures Exists(fs', dir, name) <==> Exists(fs, dir, name)
  {
  }

  /** A mounted filesystem, changed in place by each system call. */
  class Volume {
    var fs: Fs

    constructor (fs: Fs)
      ensures this.fs == fs
    {
      this.fs := fs;
    }

    /** `openSync(path, "wx")`. */
    method OpenExclusive(dir: string, name: string, choice: AW.Choice) returns (handle: Option<nat>)
      modifies this
      ensures
        if choice.Works? && dir in old(fs).dirs && !Exists(old(fs), dir, name)
        then handle == Some(|old(fs).inodes|) && fs == CreateExclusive(old(fs), dir, name)
        else handle == None && fs == old(fs)
    {
      if choice.Works? && dir in fs.dirs && !Exists(fs, dir, name) {
        handle := Some(|fs.inodes|);
        fs := CreateExclusive(fs, dir, name);
      } else {
        handle := None;
      }
    }

    /** `writeSync`: all the bytes, or a fault after some of them. */
    method Write(handle: nat, bytes: seq<byte>, choice: AW.Choice) returns (ok: bool)
      requires handle < |fs.inodes|
      modifies this
      ensures ok <==> choice.Works?
      ensures fs == Append(old(fs), handle,
                if ok then bytes else bytes[..if choice.written <= |bytes| then choice.written else |bytes|])
    {
      ok := choice.Works?;
      var written := if !ok && choice.written <= |bytes| then choice.written else |bytes|;
      fs := Append(fs, handle, if ok then bytes else bytes[..written]);
    }

    /** `fsyncSync` on a file. */
    method Fsync(handle: nat, choice: AW.Choice) returns (ok: bool)
      requires handle < |fs.inodes|
      modifies this
      ensures ok <==> choice.Works?
      ensures fs == if ok then SyncFile(old(fs), handle) else old(fs)
    {
      ok := choice.Works?;
      if ok {
        fs := SyncFile(fs, handle);
      }
    }

    /** `renameSync` within one directory. */
    method Rename(dir: string, src: string, dst: string, choice: AW.Choice) returns (ok: bool)
      modifies this
      ensures ok <==> choice.Works? && Exists(old(fs), dir, src)
      ensures fs == if ok then RenameEntry(old(fs), dir, src, dst) else old(fs)
    {
      ok := choice.Works? && Exists(fs, dir, src);
      if ok {
        fs := RenameEntry(fs, dir, src, dst);
      }
    }

    /** `unlinkSync`, whose failure the caller swallows. */
    method UnlinkQuietly(dir: string, name: string, choice: AW.Choice)
      modifies this
      ensures fs == if choice.Works? && Exists(old(fs), dir, name) then Remove(old(fs), dir, name) else old(fs)
    {
      if choice.Works? && Exists(fs, dir, name) {
        fs := Remove(fs, dir, name);
      }
    }

    /** `syncDirectory`: open, sync, and close whether or not the sync worked. */
    method SyncDir(job: AW.Job, h: nat, env: Environment, ghost fs0: Fs, ghost before: seq<AW.Move>)
        returns (ok: bool, ghost moves: seq<AW.Move>, ghost pc: AW.Pc)
      requires Alone(fs0, job, before, fs, AW.OpenDir(h))
      modifies this
      ensures Alone(fs0, job, moves, fs, pc) && AW.Finished(pc)
      ensures ok <==> pc.Returned?
      ensures ok <==> job.dir in old(fs).dirs && DirCallsWork(env, h)
      ensures fs == old(fs) || (job.dir in old(fs).dirs && fs == SyncDirectory(old(fs), job.dir))
    {
      moves, pc := Advance(fs0, job, before, fs, AW.OpenDir(h), env);
      if env(AW.OpenDir(h)).Faults? {
        return false, moves, pc;
      }
      var synced := env(AW.SyncDir(h)).Works? && job.dir in fs.dirs;
      moves, pc := Advance(fs0, job, moves, fs, pc, env);
      if synced {
        fs := SyncDirectory(fs, job.dir);
      }
      moves, pc := Advance(fs0, job, moves, fs, pc, env);
      ok := env(AW.CloseDir(h, synced)).Works? && synced;
    }

    /** The catch block: close a handle still set, then unlink; a close that throws skips the unlink. */
    method CatchBlock(job: AW.Job, handle: Option<nat>, env: Environment, ghost fs0: Fs, ghost before: seq<AW.Move>)
        returns (ghost moves: seq<AW.Move>, ghost pc: AW.Pc)
      requires job.Replace?
      requires Alone(fs0, job, before, fs, if handle.Some? then AW.CatchClose(handle.value) else AW.CatchUnlink)
      modifies this
      ensures Alone(fs0, job, moves, fs, pc) && pc.Threw?
      ensures fs == old(fs) || (Exists(old(fs), job.dir, job.temp) && fs == Remove(old(fs), job.dir, job.temp))
      // Nothing is left of the temporary when its own calls work.
      ensures (handle.Some? ==> env(AW.CatchClose(handle.value)).Works?) && env(AW.CatchUnlink).Works? ==>
                !Exists(fs, job.dir, job.temp)
    {
      hide AW.Run, Alone;
      if Exists(fs, job.dir, job.temp) {
        RemovedIsGone(fs, job.dir, job.temp);
      }
      moves := before;
      if handle.Some? {
        moves, pc := Advance(fs0, job, moves, fs, AW.CatchClose(handle.value), env);
        if env(AW.CatchClose(handle.value)).Faults? {
          return;
        }
      }
      moves, pc := Advance(fs0, job, moves, fs, AW.CatchUnlink, env);
      UnlinkQuietly(job.dir, job.temp, env(AW.CatchUnlink));
    }

    /** `replaceFileAtomically`, with `handle` set and cleared as there. */
    method ReplaceFileAtomically(dir: string, name: string, temp: string, bytes: seq<byte>, env: Environment)
        returns (ok: bool, ghost moves: seq<AW.Move>)
      requires AW.NoDangling(fs) && temp != name
      modifies this
      ensures ReplacePromise(old(fs), AW.Replace(dir, name, temp, bytes), moves, fs, ok)
      // It returns exactly when the directory is there, the temporary's name free, and each call works.
      ensures ok <==> var h := |old(fs).inodes|;
                && dir in old(fs).dirs && !Exists(old(fs), dir, temp)
                && FileCallsWork(env, h) && env(AW.Rename(h)).Works? && DirCallsWork(env, h)
      // And no temporary is left, after a throw neither as long as the catch block's calls work.
      ensures ok || (env(AW.CatchClose(|old(fs).inodes|)).Works? && env(AW.CatchUnlink).Works?) ==>
                !Exists(fs, dir, temp)
    {
      ghost var fs0 := fs;
      var job := AW.Replace(dir, name, temp, bytes);
      // The proof goes by `Advance` alone; unfolding whole runs here only slows it down.
      hide AW.Run, Alone, ReplacePromise;
      ghost var pc: AW.Pc := AW.Open;
      moves := [];
      Begin(fs0, job);
      var handle: Option<nat> := None;
      var h := 0;
      var threw := true;
      label attempt: {
        moves, pc := Advance(fs0, job, moves, fs, pc, env);
        handle := OpenExclusive(dir, temp, env(AW.Open));
        if handle.None? { break attempt; }
        h := handle.value;
        moves, pc := Advance(fs0, job, moves, fs, pc, env);
        var written := Write(h, bytes, env(AW.Write(h)));
        if !written { break attempt; }
        moves, pc := Advance(fs0, job, moves, fs, pc, env);
        var synced := Fsync(h, env(AW.Sync(h)));
        if !synced { break attempt; }
        moves, pc := Advance(fs0, job, moves, fs, pc, env);
        if env(AW.Close(h)).Faults? { break attempt; }
        handle := None;
        moves, pc := Advance(fs0, job, moves, fs, pc, env);
        CreatedExists(fs0, dir, temp);
        SameNames(CreateExclusive(fs0, dir, temp), fs, dir, temp);
        ghost var was := fs;
        var renamed := Rename(dir, temp, name, env(AW.Rename(h)));
        if !renamed { break attempt; }
        RenamedIsGone(was, dir, temp, name);
        SyncKeepsNames(fs, dir, temp);
        threw := false;
      }
      if threw {
        moves, pc := CatchBlock(job, handle, env, fs0, moves);
        ok := false;
      } else {
        ok, moves, pc := SyncDir(job, h, env, fs0, moves);
      }
      ReplaceKeepsPromise(fs0, job, moves, fs, pc);
    }

    /** `createFileExclusively`: no temporary, and the handle closed whatever happens. */
    method CreateFileExclusively(dir: string, name: string, bytes: seq<byte>, env: Environment)
        returns (ok: bool, ghost moves: seq<AW.Move>)
      requires AW.NoDangling(fs)
      modifies this
      ensures CreatePromise(old(fs), AW.Create(dir, name, bytes), moves, fs, ok)
      ensures ok <==> var h := |old(fs).inodes|;
                && dir in old(fs).dirs && !Exists(old(fs), dir, name)
                && FileCallsWork(env, h) && DirCallsWork(env, h)
    {
      ghost var fs0 := fs;
      var job := AW.Create(dir, name, bytes);
      hide AW.Run, Alone, CreatePromise;
      ghost var pc: AW.Pc := AW.Open;
      moves := [];
      Begin(fs0, job);
      moves, pc := Advance(fs0, job, moves, fs, pc, env);
      var handle := OpenExclusive(dir, name, env(AW.Open));
      if handle.None? {
        CreateKeepsPromise(fs0, job, moves, fs, pc);
        return false, moves;
      }
      var h := handle.value;
      var threw := true;
      label attempt: {
        moves, pc := Advance(fs0, job, moves, fs, pc, env);
        var written := Write(h, bytes, env(AW.Write(h)));
        if !written { break attempt; }
        moves, pc := Advance(fs0, job, moves, fs, pc, env);
        var synced := Fsync(h, env(AW.Sync(h)));
        if !synced { break attempt; }
        threw := false;
      }
      moves, pc := Advance(fs0, job, moves, fs, pc, env);
      if threw || env(AW.Close(h)).Faults? {
        ok := false;
      } else {
        ok, moves, pc := SyncDir(job, h, env, fs0, moves);
      }
      CreateKeepsPromise(fs0, job, moves, fs, pc);
    }
  }
}
