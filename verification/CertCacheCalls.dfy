/**
 * `mintCached` and `publish` as one worker's code, while everybody else goes on between its calls: proved
 * to be runs of the step machine, and so to hand out one whole mint.
 */
module CertCacheCalls {
  import opened Base
  import opened CertCache

  /** Everybody else's moves, and the clock's. */
  predicate Foreign(me: nat, m: Move) {
    m.Tick? || m.who != me
  }

  lemma ForeignKeeps(s: Cache, mints: seq<Material>, me: nat, m: Move)
    requires |mints| == |s.workers| && me < |mints| && Foreign(me, m)
    ensures Step(s, mints, m).workers[me] == s.workers[me]
  {
    hide Call;
  }

  /** How many files are still to be copied out. */
  function Left(files: Material, dir: Material): nat {
    |files.Keys - dir.Keys|
  }

  /** One step of a copy out of an entry. */
  lemma CopyOutStep(s: Cache, mints: seq<Material>, me: nat, name: string, touched: bool)
    requires |mints| == |s.workers| && me < |mints| && s.workers[me].pc == CopyOut
    ensures
      var s' := Step(s, mints, Act(me, name, touched));
      var w, w' := s.workers[me], s'.workers[me];
      && s'.entry == s.entry && s'.finished == s.finished
      && (s.entry.Absent? ==> w'.pc == Mint)
      && (s.entry.Dir? && s.entry.files.Keys <= w.dir.Keys ==>
            w'.pc == Hit && (Part(w.dir, s.entry.files) ==> w'.dir == s.entry.files))
      && (s.entry.Dir? && name in s.entry.files && name !in w.dir ==>
            && w'.pc == CopyOut && Left(s.entry.files, w'.dir) < Left(s.entry.files, w.dir)
            && (Part(w.dir, s.entry.files) ==> Part(w'.dir, s.entry.files)))
  {
    var w := s.workers[me];
    if s.entry.Dir? && s.entry.files.Keys <= w.dir.Keys && Part(w.dir, s.entry.files) {
      WholeIs(w.dir, s.entry.files);
    }
    if s.entry.Dir? && name in s.entry.files && name !in w.dir {
      assert !(s.entry.files.Keys <= w.dir.Keys);
      OneFileNearer(s.entry.files, w.dir, name);
    }
    hide Part, Left;
  }

  lemma OneFileNearer(files: Material, dir: Material, name: string)
    requires name in files && name !in dir
    ensures Left(files, dir[name := files[name]]) < Left(files, dir)
    ensures Part(dir, files) ==> Part(dir[name := files[name]], files)
  {
    var left, dir' := files.Keys - dir.Keys, dir[name := files[name]];
    assert dir'.Keys == dir.Keys + {name};
    assert files.Keys - dir'.Keys == left - {name};
    FewerLeft(left, name);
  }

  /** One step of a copy into an entry. */
  lemma FillInto(s: Cache, mints: seq<Material>, me: nat, name: string, touched: bool)
    requires |mints| == |s.workers| && me < |mints| && s.workers[me].pc == Fill
    requires
      var w := s.workers[me];
      w.copied <= w.dir.Keys && (!(w.dir.Keys <= w.copied) ==> name in w.dir && name !in w.copied)
    ensures
      var s' := Step(s, mints, Act(me, name, touched));
      var w, w' := s.workers[me], s'.workers[me];
      && w'.dir == w.dir
      && (s.entry.Absent? ==> w'.pc == CleanEntry)
      && (s.entry.Dir? ==> s'.entry.Dir?)
      && (s.entry.Dir? && w.dir.Keys <= w.copied ==> w'.pc == Published && s'.finished)
      && (s.entry.Dir? && !(w.dir.Keys <= w.copied) ==>
            && w'.pc == Fill && w'.copied <= w.dir.Keys
            && |w.dir.Keys - w'.copied| < |w.dir.Keys - w.copied|)
  {
    var w := s.workers[me];
    if !(w.dir.Keys <= w.copied) {
      OneFewer(w, name);
    }
  }

  predicate Stale(s: Cache) {
    s.entry.Dir? && s.now - s.entry.mtime >= STALE_CLAIM
  }

  /** A publisher by itself can fill the entry. */
  predicate Open(s: Cache) {
    !s.finished && (s.entry.Absent? || Stale(s))
  }

  /** Where a call of `publish` outside its copying leads. */
  lemma PublishCall(s: Cache, w: CertCache.Worker, me: nat, minted: Material, touched: bool)
    ensures
      var (entry, finished, w') := Call(s, w, me, minted, "", touched);
      match w.pc
      case LookEntry =>
        && w' == w.(pc := if s.entry.Dir? then LookMarker else CertCache.Claim)
        && entry == s.entry && finished == s.finished
      case LookAge =>
        && (w' == w.(pc := Kept) || w' == w.(pc := RemoveStale))
        && (Stale(s) ==> w'.pc == RemoveStale) && entry == s.entry && finished == s.finished
      case RemoveStale => w' == w.(pc := CertCache.Claim) && entry == Absent && finished == s.finished
      case Claim =>
        && w'.dir == w.dir && (w'.pc == Kept || (w'.pc == Fill && w'.copied == {}))
        && (s.entry.Absent? ==> w'.pc == Fill && entry.Dir?)
      case CleanEntry => w' == w.(pc := CleanMarker)
      case CleanMarker => w' == w.(pc := Kept)
      case _ => true
  {
  }

  class Worker {
    const mints: seq<Material>
    const me: nat
    ghost const began: nat
    /** What everybody else does before each of this worker's calls, and which of them throw. */
    const world: nat -> seq<Move>
    const throws: nat -> bool
    /** Which of this worker's copies change the entry's own modification time. */
    const touches: nat -> bool
    /** Where a copy out of the entry throws. */
    const copyOutStops: nat
    var s: Cache
    var calls: nat
    ghost var moves: seq<Move>

    ghost predicate Reached()
      reads this
    {
      me < |mints| && |mints| == |s.workers| && s == Run(Start(mints, began), mints, moves)
    }

    /** No removal has hit so far, this worker's own included. */
    ghost predicate Spared()
      requires |mints| == |s.workers|
      reads this
    {
      Scheduled(Start(mints, began), mints, moves, SPARING)
    }

    /** Nobody else does anything. */
    ghost predicate Quiet() {
      forall n :: world(n) == []
    }

    /** And no call of this worker's throws. */
    ghost predicate Unhindered() {
      Quiet() && forall n :: !throws(n)
    }

    function Mine(): CertCache.Worker
      requires me < |s.workers|
      reads this
    {
      s.workers[me]
    }

    constructor (mints: seq<Material>, me: nat, began: nat, world: nat -> seq<Move>, throws: nat -> bool,
                 touches: nat -> bool, copyOutStops: nat)
      requires me < |mints|
      ensures Reached() && moves == [] && this.mints == mints && this.me == me && this.began == began
      ensures Mine().pc == CheckMarker && Mine().dir == map[]
    {
      this.mints, this.me, this.began, this.world, this.throws := mints, me, began, world, throws;
      this.touches, this.copyOutStops := touches, copyOutStops;
      s, calls, moves := Start(mints, began), 0, [];
    }

    method Take(m: Move)
      requires Reached()
      modifies this
      ensures Reached() && s == Step(old(s), mints, m) && calls == old(calls)
    {
      ghost var moves' := moves + [m];
      assert moves'[..|moves|] == moves;
      s := Step(s, mints, m);
      moves := moves';
    }

    /** Between two calls. */
    method Others()
      requires Reached()
      modifies this
      ensures Reached() && Mine() == old(Mine()) && calls == old(calls) + 1
      ensures Quiet() ==> s == old(s)
    {
      hide Step, Run;
      var others := world(calls);
      calls := calls + 1;
      ghost var mine, now, was := Mine(), calls, s;
      for i := 0 to |others|
        invariant Reached() && Mine() == mine && calls == now && (Quiet() ==> s == was)
      {
        if Foreign(me, others[i]) {
          ForeignKeeps(s, mints, me, others[i]);
          Take(others[i]);
        }
      }
    }

    /** A call that works, and the cache as it found it. */
    method Works(name: string) returns (ghost at: Cache)
      requires Reached()
      modifies this
      ensures Reached() && at == old(s) && calls == old(calls)
      ensures s == Step(at, mints, Act(me, name, touches(calls)))
      ensures Mine() == Call(at, old(Mine()), me, mints[me], name, touches(calls)).2
    {
      hide Call, Run;
      at := s;
      Take(Act(me, name, touches(calls)));
    }

    /** A call that may throw. */
    method Tries(name: string) returns (ok: bool, ghost at: Cache)
      requires Reached()
      modifies this
      ensures Reached() && me < |at.workers| && at.workers[me] == old(Mine()) && calls == old(calls) + 1
      ensures Mine() == if ok then Call(at, old(Mine()), me, mints[me], name, touches(calls)).2
                        else old(Mine()).(pc := Thrown(old(Mine()).pc))
      ensures ok <==> !throws(calls)
      ensures |at.workers| == |mints|
      ensures s == Step(at, mints, if ok then Act(me, name, touches(calls)) else Fail(me))
      ensures Quiet() ==> at == old(s)
    {
      hide Call, Run;
      Others();
      at := s;
      ok := !throws(calls);
      if ok {
        at := Works(name);
      } else {
        Take(Fail(me));
      }
    }

    /** `existsSync(marker(entry))`. */
    method MarkerThere() returns (there: bool)
      requires Reached() && (Mine().pc == CheckMarker || Mine().pc == LookMarker)
      modifies this
      ensures Reached() && Mine().dir == old(Mine()).dir
      ensures Mine().pc == if old(Mine()).pc == CheckMarker then (if there then CopyOut else Mint)
                           else if there then Claim else LookAge
      ensures Quiet() ==> there == old(s).finished && s.entry == old(s).entry && s.finished == old(s).finished
      ensures Quiet() ==> s.now == old(s).now
    {
      Others();
      there := s.finished;
      ghost var at := Works("");
    }

    /** The next file of `cpSync(entry, dir)`: whether it was the last, or there was nothing to copy from. */
    method CopyNext() returns (done: bool)
      requires Reached() && Mine().pc == CopyOut
      modifies this
      ensures Reached() && if done then Mine().pc == Hit || Mine().pc == Mint else Mine().pc == CopyOut
      ensures Quiet() && old(s).entry.Dir? && Part(old(Mine()).dir, old(s).entry.files) ==>
                && s.entry == old(s).entry && s.finished == old(s).finished
                && (done ==> Mine().pc == Hit && Mine().dir == s.entry.files)
                && (!done ==> Part(Mine().dir, s.entry.files)
                              && Left(s.entry.files, Mine().dir) < Left(s.entry.files, old(Mine()).dir))
    {
      Others();
      var name := "";
      done := s.entry.Absent? || s.entry.files.Keys <= Mine().dir.Keys;
      if !done {
        name :| name in s.entry.files && name !in Mine().dir;
      }
      CopyOutStep(s, mints, me, name, touches(calls));
      hide Step, Call, Run, Part;
      ghost var at := Works(name);
    }

    /** `cpSync(entry, dir)`: false when it throws, having copied what it had. */
    method TryCopyOut() returns (ok: bool)
      requires Reached() && Mine().pc == CopyOut
      modifies this
      ensures Reached() && Mine().pc == if ok then Hit else Mint
      ensures Quiet() && Whole(old(s).entry, old(Mine()).dir) ==>
                ok && s.finished == old(s).finished && s.entry == old(s).entry && Mine().dir == s.entry.files
    {
      var i := 0;
      ghost var entry, finished, whole := s.entry, s.finished, Quiet() && Whole(s.entry, Mine().dir);
      hide Step, Call, Run, Part;
      while i < copyOutStops
        invariant Reached() && Mine().pc == CopyOut && i <= copyOutStops
        invariant whole ==> s.entry == entry && s.finished == finished && Part(Mine().dir, entry.files)
        invariant whole ==> Left(entry.files, Mine().dir) < copyOutStops - i
        decreases copyOutStops - i
      {
        var done := CopyNext();
        if done {
          return Mine().pc == Hit;
        }
        i := i + 1;
      }
      ok := false;
      GivesUp();
    }

    /** The copy throws. */
    method GivesUp()
      requires Reached() && Mine().pc == CopyOut
      modifies this
      ensures Reached() && Mine().pc == Mint
    {
      hide Run;
      Take(Fail(me));
    }

    /** A copy out of this entry on top of `dir` is not stopped before it is complete. */
    predicate Whole(entry: Slot, dir: Material) {
      entry.Dir? && Part(dir, entry.files) && Left(entry.files, dir) < copyOutStops
    }

    /** `cpSync(dir, entry)` and the marker; false when one of them throws. */
    method TryFill() returns (ok: bool)
      requires Reached() && Mine().pc == Fill && Mine().copied == {}
      modifies this
      ensures Reached() && Mine().dir == old(Mine()).dir && Mine().pc == if ok then Published else CleanEntry
      ensures Unhindered() && old(s).entry.Dir? ==> ok && s.finished
    {
      ghost var free := Unhindered() && s.entry.Dir?;
      hide Step, Call, Run;
      while !(Mine().dir.Keys <= Mine().copied)
        invariant Reached() && Mine().pc == Fill && Mine().dir == old(Mine()).dir && Mine().copied <= Mine().dir.Keys
        invariant free ==> s.entry.Dir?
        decreases |Mine().dir.Keys - Mine().copied|
      {
        var name :| name in Mine().dir && name !in Mine().copied;
        FillNext(name);
        if Mine().pc == CleanEntry { return false; }
      }
      FillNext("");
      ok := Mine().pc == Published;
    }

    /** The next file, or with none left the marker. */
    method FillNext(name: string)
      requires Reached() && Mine().pc == Fill && Mine().copied <= Mine().dir.Keys
      requires !(Mine().dir.Keys <= Mine().copied) ==> name in Mine().dir && name !in Mine().copied
      modifies this
      ensures Reached() && Mine().dir == old(Mine()).dir
      ensures if old(Mine().dir.Keys <= Mine().copied) then Mine().pc == Published || Mine().pc == CleanEntry
              else Mine().pc == CleanEntry
                   || (Mine().pc == Fill && Mine().copied <= Mine().dir.Keys
                       && |Mine().dir.Keys - Mine().copied| < old(|Mine().dir.Keys - Mine().copied|))
      ensures Unhindered() && old(s).entry.Dir? ==>
                s.entry.Dir? && if old(Mine().dir.Keys <= Mine().copied) then Mine().pc == Published && s.finished
                                else Mine().pc == Fill
    {
      ghost var w := Mine();
      var ok;
      ghost var at;
      ok, at := Tries(name);
      FillInto(at, mints, me, name, touches(calls));
      hide Step, Call, Run;
    }

    /** The first half of `publish`: clear a stale claim and take the name; false when it gives way. */
    method TryClaim() returns (claimed: bool)
      requires Reached() && Mine().pc == LookEntry
      modifies this
      ensures Reached() && Mine().dir == old(Mine()).dir
      ensures if claimed then Mine().pc == Fill && Mine().copied == {} else Mine().pc == Kept
      ensures Unhindered() && Open(old(s)) ==> claimed && s.entry.Dir?
    {
      ghost var at, was;
      var ok;
      hide Call;
      claimed := false;
      was := Mine();
      ok, at := Tries("");
      PublishCall(at, was, me, mints[me], touches(calls));
      if !ok { return; }
      if Mine().pc == LookMarker {
        var finished := MarkerThere();
        if !finished {
          var cleared := TryClear();
          if !cleared { return; }
        }
      }
      was := Mine();
      ok, at := Tries("");
      PublishCall(at, was, me, mints[me], touches(calls));
      claimed := Mine().pc == Fill;
    }

    method TryClear() returns (cleared: bool)
      requires Reached() && Mine().pc == LookAge
      modifies this
      ensures Reached() && Mine().dir == old(Mine()).dir && Mine().pc == if cleared then Claim else Kept
      ensures Unhindered() && Stale(old(s)) ==> cleared && s.entry.Absent?
    {
      ghost var at, was;
      var ok;
      hide Call;
      cleared := false;
      was := Mine();
      ok, at := Tries("");
      PublishCall(at, was, me, mints[me], touches(calls));
      if Mine().pc == Kept { return; }
      was := Mine();
      ok, at := Tries("");
      PublishCall(at, was, me, mints[me], touches(calls));
      cleared := ok;
    }

    /** `publish`: whether it threw, which only its cleanup can. */
    method Publish() returns (threw: bool)
      requires Reached() && Mine().pc == LookEntry
      modifies this
      ensures Reached() && Mine().dir == old(Mine()).dir
      ensures if threw then Mine().pc == Dead else Mine().pc == Kept || Mine().pc == Published
      ensures Unhindered() && Open(old(s)) ==> !threw && Mine().pc == Published && s.finished
    {
      // try
      var claimed := TryClaim();
      if !claimed { return false; }
      // try
      var filled := TryFill();
      if filled { return false; }
      // catch
      ghost var at;
      var ok;
      ok, at := Tries("");
      if !ok { return true; }
      ok, at := Tries("");
      threw := !ok;
    }

    /**
     * `mintCached`, among any others: if no removal hits, the caller's directory ends up with the one
     * mint that is published, whole, or with all of its own.
     */
    method MintCached() returns (threw: bool, hit: bool)
      requires Reached() && Mine().pc == CheckMarker && Mine().dir == map[]
      modifies this
      ensures Reached()
      // A published entry is used, and an open one is filled.
      ensures Quiet() && old(s).finished && Whole(old(s).entry, map[]) ==>
                !threw && hit && s.entry == old(s).entry && Mine().dir == s.entry.files
      ensures Unhindered() && Open(old(s)) ==> !threw && !hit && Mine().pc == Published && s.finished
      ensures !threw ==> (hit <==> Mine().pc == Hit)
      ensures !threw ==> Mine().pc == Hit || Mine().pc == Kept || Mine().pc == Published
      ensures !threw && SameNames(mints) && Spared() ==>
                if hit then
                  && s.entry.Dir? && s.entry.owner < |mints|
                  && Mine().dir == s.entry.files == mints[s.entry.owner]
                else Mine().dir == mints[me]
    {
      threw, hit := false, false;
      var reusable := MarkerThere();
      if reusable {
        hit := TryCopyOut();
      }
      if !hit {
        ghost var at;
        var ok;
        ok, at := Tries("");
        if !ok { return true, false; }
        threw := Publish();
      }
      if !threw {
        HandsOutOneMint();
      }
    }

    lemma HandsOutOneMint()
      requires Reached() && (Mine().pc == Hit || Mine().pc == Kept || Mine().pc == Published)
      ensures SameNames(mints) && Spared() ==>
                if Mine().pc == Hit then
                  && s.entry.Dir? && s.entry.owner < |mints|
                  && Mine().dir == s.entry.files == mints[s.entry.owner]
                else Mine().dir == mints[me]
    {
      if SameNames(mints) && Spared() {
        EveryCallGetsOneMint(s, mints, began, moves, me);
      }
    }
  }
}
