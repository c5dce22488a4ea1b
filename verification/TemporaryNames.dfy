/**
 * Why `temporaryNameFor` carries the pid and six random bytes: what its shape guarantees, and what
 * happens to the promises of the step machine when two callers do share a temporary.
 */
module TemporaryNames {
  import opened Base
  import opened FileSystem
  import opened AtomicWrite

  /** `.<base>.tmp-<pid>-<twelve hex digits>`, beside the target. */
  function TemporaryNameFor(base: string, pid: string, entropy: string): string {
    "." + base + ".tmp-" + pid + "-" + entropy
  }

  /** Different targets, processes or draws never share a temporary, and none is its own target. */
  lemma TemporaryNamesDiffer(base: string, pid: string, entropy: string, base': string, pid': string, entropy': string)
    requires '-' !in pid && '-' !in pid' && |entropy| == |entropy'| == 12
    ensures TemporaryNameFor(base, pid, entropy) == TemporaryNameFor(base', pid', entropy') <==>
            base == base' && pid == pid' && entropy == entropy'
    ensures TemporaryNameFor(base, pid, entropy) != base
  {
    var name, name' := TemporaryNameFor(base, pid, entropy), TemporaryNameFor(base', pid', entropy');
    if name == name' {
      var n, stem, stem' := |name| - 13, "." + base + ".tmp-", "." + base' + ".tmp-";
      assert name == stem + pid + "-" + entropy && name' == stem' + pid' + "-" + entropy';
      assert entropy == name[n + 1..] == name'[n + 1..] == entropy';
      assert stem + pid == name[..n] && stem' + pid' == name'[..n];
      DashEndsStem(stem, pid, stem', pid');
      assert base == stem[1..|stem| - 5] == stem'[1..|stem'| - 5] == base';
    }
    assert |name| > |base|;
  }

  lemma DashEndsStem(stem: string, pid: string, stem': string, pid': string)
    requires stem + pid == stem' + pid' && '-' !in pid && '-' !in pid'
    requires stem != [] && stem' != [] && Last(stem) == '-' == Last(stem')
    ensures stem == stem' && pid == pid'
  {
    var whole := stem + pid;
    assert whole[|stem| - 1] == '-' && (stem' + pid')[|stem'| - 1] == '-';
    assert forall k | |stem| <= k < |whole| :: whole[k] == pid[k - |stem|];
    assert forall k | |stem'| <= k < |whole| :: (stem' + pid')[k] == pid'[k - |stem'|];
    assert stem == whole[..|stem|] && stem' == (stem' + pid')[..|stem'|];
    assert pid == whole[|stem|..] && pid' == (stem' + pid')[|stem'|..];
  }

  function Then(s: System, who: nat): (s': System)
    requires WellShaped(s) && who < |s.jobs|
    ensures WellShaped(s') && s'.jobs == s.jobs
  {
    CallKeepsInodes(s.fs, s.jobs[who], s.pcs[who], Works);
    Step(s, who, Works)
  }

  lemma RunThen(s0: System, before: seq<Move>, who: nat) returns (moves: seq<Move>)
    requires WellShaped(s0) && who < |s0.jobs|
    ensures Run(s0, moves) == Then(Run(s0, before), who)
  {
    moves := before + [Move(who, Works)];
    assert moves[..|before|] == before;
  }

  // ---------------------------------------------------------------------------
  // Three callers who share a temporary.
  // ---------------------------------------------------------------------------

  /** Where three callers stand, and what their shared temporary holds. */
  predicate Stage(s: System, i: nat, pcI: Pc, j: nat, pcJ: Pc, k: nat, pcK: Pc, temp: Option<Entry>) {
    && WellShaped(s) && i < |s.jobs| && j < |s.jobs| && k < |s.jobs| && i != j && j != k && i != k
    && s.pcs[i] == pcI && s.pcs[j] == pcJ && s.pcs[k] == pcK
    && s.jobs[i].Replace? && s.jobs[i].dir in s.fs.dirs && TempIs(s.fs, s.jobs[i]) == temp
    && s.jobs[i].temp != s.jobs[i].name
    && Shares(s.jobs[i], s.jobs[j]) && Shares(s.jobs[i], s.jobs[k])
    && s.jobs[j].temp != s.jobs[j].name && s.jobs[k].temp != s.jobs[k].name
    && s.order == []
  }

  /** The first gets as far as its rename. */
  lemma FirstWrites(s: System, i: nat, j: nat, k: nat)
    requires Stage(s, i, Open, j, Open, k, Open, None)
    ensures
      var n := |s.fs.inodes|;
      Stage(Then(Then(Then(Then(s, i), i), i), i), i, AtomicWrite.Rename(n), j, Open, k, Open, Some(File(n)))
  {
    hide TempIs, Replay;
    var n := |s.fs.inodes|;
    OwnTempAfter(s.fs, s.jobs[i], s.pcs[i], Works);
    TempAbsent(s.fs, s.jobs[i]);
    var s1 := Then(s, i);
    assert Stage(s1, i, Write(n), j, Open, k, Open, Some(File(n)));
    OwnTempAfter(s1.fs, s.jobs[i], s1.pcs[i], Works);
    var s2 := Then(s1, i);
    assert Stage(s2, i, Sync(n), j, Open, k, Open, Some(File(n)));
    OwnTempAfter(s2.fs, s.jobs[i], s2.pcs[i], Works);
    var s3 := Then(s2, i);
    assert Stage(s3, i, Close(n), j, Open, k, Open, Some(File(n)));
    OwnTempAfter(s3.fs, s.jobs[i], s3.pcs[i], Works);
  }

  lemma TempAbsent(fs: Fs, job: Job)
    requires job.Replace? && job.dir in fs.dirs
    ensures Exists(fs, job.dir, job.temp) <==> TempIs(fs, job).Some?
    ensures Claimed(job) == job.temp
  {
  }

  /** The second's open fails, and its cleanup removes the first one's temporary. */
  lemma SecondUnlinks(s: System, i: nat, j: nat, k: nat, n: nat)
    requires Stage(s, i, AtomicWrite.Rename(n), j, Open, k, Open, Some(File(n)))
    ensures Stage(Then(Then(s, j), j), i, AtomicWrite.Rename(n), j, Threw, k, Open, None)
  {
    hide TempIs, Replay;
    SameTemp(s, i, j);
    TempAbsent(s.fs, s.jobs[j]);
    var s1 := Then(s, j);
    assert s1.pcs[j] == CatchUnlink && s1.fs == s.fs;
    UnlinkedTemp(s1.fs, s.jobs[j]);
    SameTemp(Then(s1, j), i, j);
  }

  lemma SameTemp(s: System, i: nat, j: nat)
    requires i < |s.jobs| && j < |s.jobs| && Shares(s.jobs[i], s.jobs[j])
    ensures s.jobs[i].dir in s.fs.dirs ==> TempIs(s.fs, s.jobs[i]) == TempIs(s.fs, s.jobs[j])
  {
  }

  lemma UnlinkedTemp(fs: Fs, job: Job)
    requires job.Replace? && job.dir in fs.dirs && Exists(fs, job.dir, job.temp) && job.temp != job.name
    ensures Call(fs, job, CatchUnlink, Works) == (Remove(fs, job.dir, job.temp), Threw)
    ensures job.dir in Remove(fs, job.dir, job.temp).dirs && TempIs(Remove(fs, job.dir, job.temp), job) == None
  {
    hide Candidates, Replay, Apply, Effect;
    var fs' := Remove(fs, job.dir, job.temp);
    TempEffects(fs, job);
    ViewIsLastCandidate(fs'.dirs[job.dir], job.temp);
    LoggedCandidates(fs, job.dir, DropName(job.temp), job.dir, job.temp);
  }

  /** The third opens the name afresh. */
  lemma ThirdOpens(s: System, i: nat, j: nat, k: nat, n: nat)
    requires Stage(s, i, AtomicWrite.Rename(n), j, Threw, k, Open, None)
    ensures
      var s', m := Then(s, k), |s.fs.inodes|;
      && Stage(s', i, AtomicWrite.Rename(n), j, Threw, k, Write(m), Some(File(m)))
      && m < |s'.fs.inodes| && s'.fs.inodes[m] == Inode([], false)
  {
    hide TempIs, Replay;
    SameTemp(s, i, k);
    TempAbsent(s.fs, s.jobs[k]);
    OwnTempAfter(s.fs, s.jobs[k], s.pcs[k], Works);
    SameTemp(Then(s, k), i, k);
  }

  /** And the first renames that empty file into place. */
  lemma FirstRenamesThird(s: System, i: nat, j: nat, k: nat, n: nat, m: nat)
    requires Stage(s, i, AtomicWrite.Rename(n), j, Threw, k, Write(m), Some(File(m)))
    requires m < |s.fs.inodes| && s.fs.inodes[m] == Inode([], false)
    ensures
      var s', job := Then(s, i), s.jobs[i];
      && s'.order == [i] && job.dir in s'.fs.dirs
      && Get(View(s'.fs.dirs[job.dir]), job.name) == Some(File(m))
      && m < |s'.fs.inodes| && s'.fs.inodes[m] == Inode([], false)
  {
    var job := s.jobs[i];
    var d := s.fs.dirs[job.dir];
    TempAbsent(s.fs, job);
    ReplayStep(d.durable, d.log, SwapName(job.temp, job.name, View(d)[job.temp]));
    hide Replay;
  }

  /**
   * Whoever the three are, and whatever else there is: a run that leaves the first one's target empty, and
   * which a crash can turn into any bytes at all.
   */
  lemma ThreeSharersTear(fs0: Fs, jobs: seq<Job>, i: nat, j: nat, k: nat, c: Content)
    returns (moves: seq<Move>, crashed: Fs)
    requires TempsApart(jobs) && i < |jobs| && j < |jobs| && k < |jobs| && i != j && j != k && i != k
    requires Shares(jobs[i], jobs[j]) && Shares(jobs[j], jobs[k])
    requires jobs[i].dir in fs0.dirs && TempIs(fs0, jobs[i]) == None && c.Bytes?
    ensures
      var s := Run(Start(fs0, jobs), moves);
      && s.order == [i] && Read(s.fs, jobs[i].dir, jobs[i].name) == Bytes([])
      && CrashesTo(s.fs, crashed) && Read(crashed, jobs[i].dir, jobs[i].name) == c
  {
    hide Then, TempIs, Candidates, Replay, Run;
    var s0 := Start(fs0, jobs);
    TempIsNoTarget(jobs, i, i);
    TempIsNoTarget(jobs, j, j);
    TempIsNoTarget(jobs, k, k);
    var s4 := Then(Then(Then(Then(s0, i), i), i), i);
    FirstWrites(s0, i, j, k);
    var n := |fs0.inodes|;
    var s6 := Then(Then(s4, j), j);
    SecondUnlinks(s4, i, j, k, n);
    var s7 := Then(s6, k);
    ThirdOpens(s6, i, j, k, n);
    var m := |s6.fs.inodes|;
    FirstRenamesThird(s7, i, j, k, n, m);
    NoMoves(s0);
    moves := RunThen(s0, [], i);
    moves := RunThen(s0, moves, i);
    moves := RunThen(s0, moves, i);
    moves := RunThen(s0, moves, i);
    moves := RunThen(s0, moves, j);
    moves := RunThen(s0, moves, j);
    moves := RunThen(s0, moves, k);
    moves := RunThen(s0, moves, i);
    var s := Then(s7, i);
    UnsyncedComesBack(s.fs, jobs[i].dir, jobs[i].name, m, c);
    crashed := OutcomeHasCrash(s.fs, jobs[i].dir, jobs[i].name, c);
  }

  lemma NoMoves(s: System)
    requires WellShaped(s)
    ensures Run(s, []) == s
  {
  }

  lemma UnsyncedComesBack(fs: Fs, dir: string, name: string, m: nat, c: Content)
    requires dir in fs.dirs && Get(View(fs.dirs[dir]), name) == Some(File(m)) && c.Bytes?
    requires m < |fs.inodes| && fs.inodes[m] == Inode([], false)
    ensures Outcome(fs, dir, name, c) && Read(fs, dir, name) == Bytes([])
  {
    ViewIsLastCandidate(fs.dirs[dir], name);
    assert Last(Candidates(fs.dirs[dir], name)) in Candidates(fs.dirs[dir], name);
  }

  // ---------------------------------------------------------------------------
  // Exactly when sharing is harmless.
  // ---------------------------------------------------------------------------

  /** Every run, crashed anywhere, leaves every target as it was or as one caller's whole bytes. */
  ghost predicate NeverTorn(fs0: Fs, jobs: seq<Job>) {
    forall moves, crashed, dir, name |
      CrashesTo(Run(Start(fs0, jobs), moves).fs, crashed) && !IsTemp(jobs, dir, name) ::
      OriginalOrWhole(fs0, Run(Start(fs0, jobs), moves), dir, name, Read(crashed, dir, name))
  }

  /** Replaces in directories that exist, over no leftover temporary, of targets whose bytes are on disk. */
  predicate Replacing(fs0: Fs, jobs: seq<Job>) {
    forall i | 0 <= i < |jobs| ::
      && jobs[i].Replace? && jobs[i].dir in fs0.dirs && TempIs(fs0, jobs[i]) == None
      && OnDisk(fs0.inodes, Candidates(fs0.dirs[jobs[i].dir], jobs[i].name))
  }

  predicate OnDisk(inodes: seq<Inode>, entries: seq<Option<Entry>>) {
    forall e | e in entries && e.Some? && e.value.File? :: e.value.ino < |inodes| && inodes[e.value.ino].synced
  }

  /**
   * How much sharing of temporaries is harmless: whatever is scheduled and whatever faults, no target is ever
   * torn exactly when no three callers share one. Two may, with the same target or with different ones.
   */
  lemma NeverTornIff(fs0: Fs, jobs: seq<Job>)
    requires NoDangling(fs0) && TempsApart(jobs) && Replacing(fs0, jobs)
    ensures NeverTorn(fs0, jobs) <==> AtMostTwoShare(jobs)
  {
    if AtMostTwoShare(jobs) {
      TwoNeverTear(fs0, jobs);
    } else {
      ThreeCanTear(fs0, jobs);
    }
    hide *;
  }

  lemma TwoNeverTear(fs0: Fs, jobs: seq<Job>)
    requires NoDangling(fs0) && TempsApart(jobs) && AtMostTwoShare(jobs)
    ensures NeverTorn(fs0, jobs)
  {
    hide Run, OriginalOrWhole, CrashesTo, Read, IsTemp, NoDangling;
    forall moves, crashed, dir, name |
      CrashesTo(Run(Start(fs0, jobs), moves).fs, crashed) && !IsTemp(jobs, dir, name)
      ensures OriginalOrWhole(fs0, Run(Start(fs0, jobs), moves), dir, name, Read(crashed, dir, name))
    {
      CrashLeavesWholeFile(fs0, jobs, moves, crashed, dir, name);
    }
  }

  lemma ThreeCanTear(fs0: Fs, jobs: seq<Job>)
    requires TempsApart(jobs) && Replacing(fs0, jobs) && !AtMostTwoShare(jobs)
    ensures !NeverTorn(fs0, jobs)
  {
    hide Run, Outcome, OriginalOrWhole, CrashesTo, Read, IsTemp, TempIs, OnDisk;
    var i, j, k :| 0 <= i < |jobs| && 0 <= j < |jobs| && 0 <= k < |jobs| && i != j && j != k && i != k
                   && Shares(jobs[i], jobs[j]) && Shares(jobs[j], jobs[k]);
    var c := NobodysBytes(fs0, jobs[i]);
    var moves, crashed := ThreeSharersTear(fs0, jobs, i, j, k, c);
    StrangeIsTorn(fs0, Run(Start(fs0, jobs), moves), i, c);
  }

  /** The length of the longest file among some entries. */
  function Longest(inodes: seq<Inode>, entries: seq<Option<Entry>>): nat {
    if entries == [] then 0
    else
      var rest := Longest(inodes, entries[1..]);
      match entries[0]
      case Some(File(ino)) => if ino < |inodes| && rest < |inodes[ino].bytes| then |inodes[ino].bytes| else rest
      case _ => rest
  }

  lemma {:induction false} LongestIs(inodes: seq<Inode>, entries: seq<Option<Entry>>, e: Option<Entry>)
    requires e in entries && e.Some? && e.value.File? && e.value.ino < |inodes|
    ensures |inodes[e.value.ino].bytes| <= Longest(inodes, entries)
  {
    if e != entries[0] {
      LongestIs(inodes, entries[1..], e);
    }
  }

  /** Bytes that are neither the caller's nor anything its target could have held. */
  lemma NobodysBytes(fs0: Fs, job: Job) returns (c: Content)
    requires job.dir in fs0.dirs && OnDisk(fs0.inodes, Candidates(fs0.dirs[job.dir], job.name))
    ensures c.Bytes? && c.bytes != job.bytes && !Outcome(fs0, job.dir, job.name, c)
  {
    hide Candidates, Longest;
    var entries := Candidates(fs0.dirs[job.dir], job.name);
    c := Bytes(seq(Longest(fs0.inodes, entries) + |job.bytes| + 1, _ => 0));
    forall e | e in entries ensures !EntryReads(fs0.inodes, e, c) {
      if e.Some? && e.value.File? {
        LongestIs(fs0.inodes, entries, e);
      }
    }
  }

  lemma StrangeIsTorn(fs0: Fs, s: System, i: nat, c: Content)
    requires i < |s.jobs| && s.order == [i] && s.jobs[i].Replace? && c.Bytes? && c.bytes != s.jobs[i].bytes
    requires !Outcome(fs0, s.jobs[i].dir, s.jobs[i].name, c)
    ensures !OriginalOrWhole(fs0, s, s.jobs[i].dir, s.jobs[i].name, c)
  {
    LandingsAreExact(s.jobs, s.order, s.jobs[i].dir, s.jobs[i].name);
    hide Landings, Outcome;
  }
}
