/** `packages/atomic-write`: exactly when a call returns, under any interleaving. */
module AtomicReturns {
  import opened Base
  import opened FileSystem
  import opened AtomicWrite

  /** How one caller's own system calls went, in order. */
  function OwnChoices(moves: seq<Move>, i: nat): seq<Choice> {
    if moves == [] then []
    else OwnChoices(moves[..|moves| - 1], i) + (if Last(moves).who == i then [Last(moves).choice] else [])
  }

  /** How many system calls it takes to return. */
  function CallsToReturn(job: Job): nat {
    if job.Replace? then 8 else 7
  }

  predicate AllWork(choices: seq<Choice>, n: nat) {
    forall k | 0 <= k < n && k < |choices| :: choices[k].Works?
  }

  /** The directory is there and the name to be created, the temporary of a replace, is free. */
  predicate Free(fs0: Fs, job: Job) {
    job.dir in fs0.dirs && !Exists(fs0, job.dir, Claimed(job))
  }

  /** Nobody else uses the name this caller creates. */
  predicate Undisturbed(jobs: seq<Job>, i: nat)
    requires i < |jobs|
  {
    && (jobs[i].Replace? ==> jobs[i].temp != jobs[i].name)
    && forall j | 0 <= j < |jobs| && j != i && jobs[j].dir == jobs[i].dir ::
         jobs[j].name != Claimed(jobs[i]) && (jobs[j].Replace? ==> jobs[j].temp != Claimed(jobs[i]))
  }

  /** Where a caller is after `n` calls that all worked. */
  predicate At(job: Job, n: nat, pc: Pc) {
    match pc
    case Open => n == 0
    case Write(_) => n == 1
    case Sync(_) => n == 2
    case Close(_) => n == 3
    case Rename(_) => job.Replace? && n == 4
    case OpenDir(_) => n == CallsToReturn(job) - 3
    case SyncDir(_) => n == CallsToReturn(job) - 2
    case CloseDir(_, synced) => synced && n == CallsToReturn(job) - 1
    case Returned(_) => n == CallsToReturn(job)
    case _ => false
  }

  /** On the way to a throw. */
  predicate Failing(pc: Pc) {
    match pc
    case CatchClose(_) | CatchUnlink | FinallyClose(_, _) | Threw | ThrewLanded(_, _) => true
    case CloseDir(_, synced) => !synced
    case _ => false
  }

  function Least(a: nat, b: nat): nat {
    if a < b then a else b
  }

  predicate OnCourse(fs0: Fs, fs: Fs, job: Job, pc: Pc, own: seq<Choice>) {
    && fs.dirs.Keys == fs0.dirs.Keys
    && (pc.Open? ==> (Exists(fs, job.dir, Claimed(job)) <==> Exists(fs0, job.dir, Claimed(job))))
    && (TempHeld(job, pc) ==> Exists(fs, job.dir, job.temp))
    && (Landed(job, pc) ==> job.dir in fs.dirs) && (pc.FinallyClose? ==> job.Create?)
    && Course(fs0, job, pc, own)
  }

  predicate Course(fs0: Fs, job: Job, pc: Pc, own: seq<Choice>) {
    if (own == [] || Free(fs0, job)) && AllWork(own, CallsToReturn(job))
    then At(job, Least(|own|, CallsToReturn(job)), pc)
    else Failing(pc)
  }

  /** The entry under a replace's temporary decides whether it exists. */
  lemma TempExists(fs: Fs, job: Job)
    requires job.Replace? && job.dir in fs.dirs
    ensures Exists(fs, job.dir, job.temp) <==> TempIs(fs, job) != None
  {
  }

  lemma OwnNames(fs: Fs, job: Job, pc: Pc, choice: Choice)
    requires (Held(pc) ==> pc.h < |fs.inodes|) && (job.Replace? ==> job.temp != job.name)
    requires TempHeld(job, pc) ==> Exists(fs, job.dir, job.temp)
    ensures
      var (fs', pc') := Call(fs, job, pc, choice);
      && fs'.dirs.Keys == fs.dirs.Keys && !pc'.Open?
      && (TempHeld(job, pc') ==> Exists(fs', job.dir, job.temp))
  {
    var (fs', pc') := Call(fs, job, pc, choice);
    CallKeepsInodes(fs, job, pc, choice);
    if job.Replace? && job.dir in fs.dirs {
      OwnTempAfter(fs, job, pc, choice);
      TempExists(fs, job);
      TempExists(fs', job);
    }
    hide TempIs, Exists, View, CreateExclusive, RenameEntry, Remove, SyncDirectory;
  }

  lemma AllWorkSnoc(own: seq<Choice>, choice: Choice, n: nat)
    ensures AllWork(own + [choice], n) <==> AllWork(own, n) && (|own| < n ==> choice.Works?)
  {
    var more := own + [choice];
    assert forall k | 0 <= k < |own| :: more[k] == own[k];
    assert more[|own|] == choice;
  }

  /** The whole course of a caller, one call on. */
  lemma OwnCourse(fs0: Fs, fs: Fs, job: Job, pc: Pc, choice: Choice, own: seq<Choice>)
    requires (Held(pc) ==> pc.h < |fs.inodes|) && OnCourse(fs0, fs, job, pc, own)
    ensures Course(fs0, job, Call(fs, job, pc, choice).1, own + [choice])
  {
    AllWorkSnoc(own, choice, CallsToReturn(job));
    hide View, AllWork, CreateExclusive, RenameEntry, Remove, SyncDirectory, Append, SyncFile;
  }

  lemma OwnCall(fs0: Fs, fs: Fs, job: Job, pc: Pc, choice: Choice, own: seq<Choice>)
    requires (Held(pc) ==> pc.h < |fs.inodes|) && (job.Replace? ==> job.temp != job.name)
    requires OnCourse(fs0, fs, job, pc, own)
    ensures
      var (fs', pc') := Call(fs, job, pc, choice);
      OnCourse(fs0, fs', job, pc', own + [choice])
  {
    OwnNames(fs, job, pc, choice);
    OwnCourse(fs0, fs, job, pc, choice, own);
    hide Course, View, CreateExclusive, RenameEntry, Remove, SyncDirectory, Append, SyncFile;
  }

  lemma OthersCall(fs0: Fs, fs: Fs, job: Job, pc: Pc, own: seq<Choice>, other: Job, otherPc: Pc, choice: Choice)
    requires Held(otherPc) ==> otherPc.h < |fs.inodes|
    requires OnCourse(fs0, fs, job, pc, own)
    requires other.dir == job.dir ==> other.name != Claimed(job) && (other.Replace? ==> other.temp != Claimed(job))
    ensures OnCourse(fs0, Call(fs, other, otherPc, choice).0, job, pc, own)
  {
    var fs' := Call(fs, other, otherPc, choice).0;
    CallKeepsInodes(fs, other, otherPc, choice);
    if job.dir in fs.dirs {
      OtherTempsStand(fs, other, otherPc, choice, job.dir, Claimed(job));
    }
    hide Call, View, Course;
  }

  lemma {:induction false} StaysOnCourse(fs0: Fs, jobs: seq<Job>, moves: seq<Move>, i: nat)
    requires i < |jobs| && Undisturbed(jobs, i)
    ensures
      var s := Run(Start(fs0, jobs), moves);
      |s.pcs| == |jobs| && OnCourse(fs0, s.fs, jobs[i], s.pcs[i], OwnChoices(moves, i))
  {
    hide Call, OnCourse;
    if moves == [] {
      assert OnCourse(fs0, fs0, jobs[i], Open, []) by { StartsOnCourse(fs0, jobs[i]); }
    } else {
      var init, m := moves[..|moves| - 1], Last(moves);
      var s := Run(Start(fs0, jobs), init);
      StaysOnCourse(fs0, jobs, init, i);
      if m.who == i {
        OwnCall(fs0, s.fs, jobs[i], s.pcs[i], m.choice, OwnChoices(init, i));
      } else if m.who < |jobs| {
        OthersCall(fs0, s.fs, jobs[i], s.pcs[i], OwnChoices(init, i), jobs[m.who], s.pcs[m.who], m.choice);
        assert OwnChoices(init, i) + [] == OwnChoices(init, i);
      } else {
        assert OwnChoices(init, i) + [] == OwnChoices(init, i);
      }
    }
  }

  lemma StartsOnCourse(fs0: Fs, job: Job)
    ensures OnCourse(fs0, fs0, job, Open, [])
  {
  }

  /**
   * Whatever the others do, as long as they leave the name it creates alone: a caller returns exactly when the
   * directory was there, that name was free, and its own calls have all been made and worked; and until then it
   * is on its way to a throw exactly if one did not.
   */
  lemma ReturnsIff(fs0: Fs, jobs: seq<Job>, moves: seq<Move>, i: nat)
    requires i < |jobs| && Undisturbed(jobs, i)
    ensures
      var pc, own, n := Run(Start(fs0, jobs), moves).pcs[i], OwnChoices(moves, i), CallsToReturn(jobs[i]);
      && (pc.Returned? <==> Free(fs0, jobs[i]) && |own| >= n && AllWork(own, n))
      && (Failing(pc) <==> own != [] && !(Free(fs0, jobs[i]) && AllWork(own, n)))
  {
    StaysOnCourse(fs0, jobs, moves, i);
    hide Run, Free;
  }
}
