/**
 * Which of the assumptions about schedules in `e2e/src/harness/cert-cache.ts` are needed, and for how many
 * workers: runs that break the cache, and the exact condition under which none does.
 */
module CertSchedules {
  import opened Base
  import opened CertCache

  // ---------------------------------------------------------------------------
  // Building schedules.
  // ---------------------------------------------------------------------------

  lemma Extend(s: Cache, mints: seq<Material>, moves: seq<Move>, m: Move, rules: Rules)
    requires |mints| == |s.workers| && Scheduled(s, mints, moves, rules) && Allowed(Run(s, mints, moves), m, rules)
    ensures Scheduled(s, mints, moves + [m], rules)
    ensures Run(s, mints, moves + [m]) == Step(Run(s, mints, moves), mints, m)
  {
    assert (moves + [m])[..|moves|] == moves;
  }

  lemma NoMoves(s: Cache, mints: seq<Material>, rules: Rules)
    requires |mints| == |s.workers|
    ensures Scheduled(s, mints, [], rules) && Run(s, mints, []) == s
  {
  }

  lemma One(s: Cache, mints: seq<Material>, before: seq<Move>, m: Move, rules: Rules) returns (moves: seq<Move>)
    requires |mints| == |s.workers| && Scheduled(s, mints, before, rules) && Allowed(Run(s, mints, before), m, rules)
    ensures moves == before + [m] && Scheduled(s, mints, moves, rules)
    ensures Run(s, mints, moves) == Step(Run(s, mints, before), mints, m)
  {
    Extend(s, mints, before, m, rules);
    moves := before + [m];
  }

  /** From the start to just after the exclusive `mkdir`. */
  lemma ToFill(s0: Cache, mints: seq<Material>, before: seq<Move>, w: nat, rules: Rules) returns (moves: seq<Move>)
    requires |mints| == |s0.workers| && Scheduled(s0, mints, before, rules) && w < |mints|
    requires
      var s := Run(s0, mints, before);
      s.workers[w] == Worker(CheckMarker, map[], {}, 0, 0) && !s.finished && s.entry.Absent?
    ensures Scheduled(s0, mints, moves, rules)
    ensures
      var s := Run(s0, mints, before);
      Run(s0, mints, moves) ==
        s.(entry := Dir(map[], s.now, w), workers := s.workers[w := Worker(Fill, mints[w], {}, 0, s.now)])
  {
    hide Run, Scheduled;
    moves := before;
    var m := Act(w, "", false);
    MintOverwrites(map[], mints[w]);
    Extend(s0, mints, moves, m, rules); moves := moves + [m];
    Extend(s0, mints, moves, m, rules); moves := moves + [m];
    Extend(s0, mints, moves, m, rules); moves := moves + [m];
    Extend(s0, mints, moves, m, rules); moves := moves + [m];
  }

  /** From the start to just before testing the age of a claim without a marker. */
  lemma ToTest(s0: Cache, mints: seq<Material>, before: seq<Move>, w: nat, rules: Rules) returns (moves: seq<Move>)
    requires |mints| == |s0.workers| && Scheduled(s0, mints, before, rules) && w < |mints|
    requires
      var s := Run(s0, mints, before);
      s.workers[w] == Worker(CheckMarker, map[], {}, 0, 0) && !s.finished && s.entry.Dir?
    ensures Scheduled(s0, mints, moves, rules)
    ensures
      var s := Run(s0, mints, before);
      Run(s0, mints, moves) == s.(workers := s.workers[w := Worker(LookAge, mints[w], {}, s.now, 0)])
  {
    hide Run, Scheduled;
    moves := before;
    var m := Act(w, "", false);
    MintOverwrites(map[], mints[w]);
    Extend(s0, mints, moves, m, rules); moves := moves + [m];
    Extend(s0, mints, moves, m, rules); moves := moves + [m];
    Extend(s0, mints, moves, m, rules); moves := moves + [m];
    Extend(s0, mints, moves, m, rules); moves := moves + [m];
  }

  /** From the start to just before removing a claim that looks dead. */
  lemma ToRemoval(s0: Cache, mints: seq<Material>, before: seq<Move>, w: nat, rules: Rules) returns (moves: seq<Move>)
    requires |mints| == |s0.workers| && Scheduled(s0, mints, before, rules) && w < |mints|
    requires
      var s := Run(s0, mints, before);
      && s.workers[w] == Worker(CheckMarker, map[], {}, 0, 0) && !s.finished
      && s.entry.Dir? && s.now - s.entry.mtime >= STALE_CLAIM
      && (rules.apart ==> NobodyElseRemoves(s, w))
    ensures Scheduled(s0, mints, moves, rules)
    ensures
      var s := Run(s0, mints, before);
      Run(s0, mints, moves) == s.(workers := s.workers[w := Worker(RemoveStale, mints[w], {}, s.now, 0)])
  {
    hide Run, Scheduled;
    moves := ToTest(s0, mints, before, w, rules);
    moves := One(s0, mints, moves, Act(w, "", false), rules);
  }

  /** A publisher whose claim nobody touches copies the rest of its files and sets the marker. */
  lemma {:induction false} PublishAll(s0: Cache, mints: seq<Material>, before: seq<Move>, w: nat, rules: Rules)
    returns (moves: seq<Move>)
    requires |mints| == |s0.workers| && Scheduled(s0, mints, before, rules) && w < |mints|
    requires
      var s := Run(s0, mints, before);
      s.entry.Dir? && s.workers[w].pc == Fill
    ensures Scheduled(s0, mints, moves, rules)
    ensures
      var s, s' := Run(s0, mints, before), Run(s0, mints, moves);
      && s'.finished && s'.workers[w].pc == Published
      && s'.entry.Dir? && s'.now == s.now && s'.entry.mtime == s.entry.mtime
      && (forall j | 0 <= j < |mints| && j != w :: s'.workers[j] == s.workers[j])
      && (Part(s.entry.files, s.workers[w].dir) ==> Part(s'.entry.files, s.workers[w].dir))
    decreases
      var v := Run(s0, mints, before).workers[w];
      v.dir.Keys - v.copied
  {
    hide Run, Scheduled;
    var v := Run(s0, mints, before).workers[w];
    var left := v.dir.Keys - v.copied;
    if name :| name in left {
      moves := One(s0, mints, before, Act(w, name, false), rules);
      var v' := Run(s0, mints, moves).workers[w];
      assert name !in v'.dir.Keys - v'.copied;
      moves := PublishAll(s0, mints, moves, w, rules);
    } else {
      forall n | n in v.dir.Keys ensures n in v.copied {
        assert n !in left;
      }
      moves := One(s0, mints, before, Act(w, "", false), rules);
    }
  }

  /** From the removal of a dead claim to the marker on one's own. */
  lemma Recovers(s0: Cache, mints: seq<Material>, before: seq<Move>, w: nat, rules: Rules) returns (moves: seq<Move>)
    requires |mints| == |s0.workers| && Scheduled(s0, mints, before, rules) && w < |mints|
    requires
      var s := Run(s0, mints, before);
      s.workers[w].pc == RemoveStale && !s.finished && (rules.spare ==> !HeldLive(s))
    ensures Scheduled(s0, mints, moves, rules)
    ensures
      var s, s' := Run(s0, mints, before), Run(s0, mints, moves);
      && s'.finished && s'.entry.Dir?
      && forall j | 0 <= j < |mints| && j != w :: s'.workers[j] == s.workers[j]
  {
    hide Run, Scheduled;
    moves := One(s0, mints, before, Act(w, "", false), rules);
    moves := One(s0, mints, moves, Act(w, "", false), rules);
    moves := PublishAll(s0, mints, moves, w, rules);
  }

  // ---------------------------------------------------------------------------
  // Two runs that break it.
  // ---------------------------------------------------------------------------

  /** Two files of one mint. */
  function Pair(b: byte): Material {
    map["ca" := [b], "key" := [b]]
  }

  /**
   * Two workers that both find the same dead claim: the second removes the first one's fresh claim, both
   * copy into one directory, and the marker goes onto a mixture.
   */
  lemma OverlappingRecoveriesMix() returns (mints: seq<Material>, moves: seq<Move>)
    ensures SameNames(mints) && Scheduled(Start(mints, 0), mints, moves, Rules(Some(0), false, true, false))
    ensures
      var s := Run(Start(mints, 0), mints, moves);
      s.finished && s.entry.Dir? && forall k | 0 <= k < |mints| :: s.entry.files != mints[k]
  {
    hide Run, Scheduled;
    mints := [Pair(0), Pair(1), Pair(2)];
    var s0, rules := Start(mints, 0), Rules(Some(0), false, true, false);
    moves := [];
    NoMoves(s0, mints, rules);
    moves := ToFill(s0, mints, moves, 0, rules);
    moves := One(s0, mints, moves, Die(0), rules);
    moves := One(s0, mints, moves, Tick(STALE_CLAIM), rules);
    moves := ToRemoval(s0, mints, moves, 1, rules);
    moves := ToRemoval(s0, mints, moves, 2, rules);
    var s := Run(s0, mints, moves);
    assert s == Cache(Dir(map[], 0, 0), false, STALE_CLAIM,
                      [Worker(Dead, mints[0], {}, 0, 0),
                       Worker(RemoveStale, mints[1], {}, STALE_CLAIM, 0),
                       Worker(RemoveStale, mints[2], {}, STALE_CLAIM, 0)]);
    moves := MixFrom(s0, mints, moves);
  }

  lemma MixFrom(s0: Cache, mints: seq<Material>, before: seq<Move>) returns (moves: seq<Move>)
    requires mints == [Pair(0), Pair(1), Pair(2)] && |s0.workers| == 3
    requires Scheduled(s0, mints, before, Rules(Some(0), false, true, false))
    requires Run(s0, mints, before) ==
             Cache(Dir(map[], 0, 0), false, STALE_CLAIM,
                   [Worker(Dead, mints[0], {}, 0, 0),
                    Worker(RemoveStale, mints[1], {}, STALE_CLAIM, 0),
                    Worker(RemoveStale, mints[2], {}, STALE_CLAIM, 0)])
    ensures Scheduled(s0, mints, moves, Rules(Some(0), false, true, false))
    ensures
      var s := Run(s0, mints, moves);
      s.finished && s.entry.Dir? && forall k | 0 <= k < |mints| :: s.entry.files != mints[k]
  {
    hide Run, Scheduled;
    var rules := Rules(Some(0), false, true, false);
    moves := before;
    moves := One(s0, mints, moves, Act(1, "", false), rules);
    moves := One(s0, mints, moves, Act(1, "", false), rules);
    moves := One(s0, mints, moves, Act(1, "ca", false), rules);
    assert {} + {"ca"} == {"ca"};
    assert Run(s0, mints, moves) ==
           Cache(Dir(map["ca" := [1]], STALE_CLAIM, 1), false, STALE_CLAIM,
                 [Worker(Dead, mints[0], {}, 0, 0),
                  Worker(Fill, mints[1], {"ca"}, STALE_CLAIM, STALE_CLAIM),
                  Worker(RemoveStale, mints[2], {}, STALE_CLAIM, 0)]);
    moves := MixOn(s0, mints, moves);
  }

  /** One worker has copied a file, and the other is about to remove its entry. */
  lemma MixOn(s0: Cache, mints: seq<Material>, before: seq<Move>) returns (moves: seq<Move>)
    requires mints == [Pair(0), Pair(1), Pair(2)] && |s0.workers| == 3
    requires Scheduled(s0, mints, before, Rules(Some(0), false, true, false))
    requires Run(s0, mints, before) ==
             Cache(Dir(map["ca" := [1]], STALE_CLAIM, 1), false, STALE_CLAIM,
                   [Worker(Dead, mints[0], {}, 0, 0),
                    Worker(Fill, mints[1], {"ca"}, STALE_CLAIM, STALE_CLAIM),
                    Worker(RemoveStale, mints[2], {}, STALE_CLAIM, 0)])
    ensures Scheduled(s0, mints, moves, Rules(Some(0), false, true, false))
    ensures
      var s := Run(s0, mints, moves);
      s.finished && s.entry.Dir? && forall k | 0 <= k < |mints| :: s.entry.files != mints[k]
  {
    hide Run, Scheduled;
    var rules := Rules(Some(0), false, true, false);
    moves := before;
    moves := One(s0, mints, moves, Act(2, "", false), rules);
    moves := One(s0, mints, moves, Act(2, "", false), rules);
    moves := One(s0, mints, moves, Act(2, "ca", false), rules);
    moves := One(s0, mints, moves, Act(1, "key", false), rules);
    var t := Run(s0, mints, moves);
    assert t.workers[1].copied == {"ca", "key"};
    moves := One(s0, mints, moves, Act(1, "", false), rules);
    assert t.entry.files["ca"] == [2] && t.entry.files["key"] == [1];
  }

  /** A copy that fails has removed its entry, and not yet the marker. */
  lemma FailsAndCleans(mints: seq<Material>, rules: Rules) returns (moves: seq<Move>)
    requires |mints| >= 2 && !rules.whole && !rules.spare
    ensures Scheduled(Start(mints, 0), mints, moves, rules)
    ensures
      var s := Run(Start(mints, 0), mints, moves);
      && !s.finished && s.entry.Absent?
      && s.workers[0].pc == CleanMarker && s.workers[1] == Worker(CheckMarker, map[], {}, 0, 0)
  {
    hide Run, Scheduled;
    var s0 := Start(mints, 0);
    NoMoves(s0, mints, rules);
    moves := ToFill(s0, mints, [], 0, rules);
    moves := One(s0, mints, moves, Fail(0), rules);
    moves := One(s0, mints, moves, Act(0, "", false), rules);
  }

  /**
   * A copy that fails half-way removes its entry and then, in a second call, the marker: in between
   * another worker can publish, and loses its marker.
   */
  lemma FailedCopyUnpublishes(mints: seq<Material>, rules: Rules) returns (moves: seq<Move>)
    requires |mints| >= 2 && !rules.whole && !rules.spare
    ensures Scheduled(Start(mints, 0), mints, moves, rules) && moves != []
    ensures Run(Start(mints, 0), mints, moves[..|moves| - 1]).finished
    ensures !Run(Start(mints, 0), mints, moves).finished
  {
    hide Run, Scheduled;
    var s0 := Start(mints, 0);
    moves := FailsAndCleans(mints, rules);
    moves := ToFill(s0, mints, moves, 1, rules);
    moves := PublishAll(s0, mints, moves, 1, rules);
    var published := moves;
    moves := One(s0, mints, moves, Act(0, "", false), rules);
    assert moves[..|moves| - 1] == published;
  }

  // ---------------------------------------------------------------------------
  // Main result: which rules are needed, by the number of workers.
  // ---------------------------------------------------------------------------

  predicate MarkedWhole(s: Cache, mints: seq<Material>) {
    s.finished ==> s.entry.Dir? && exists k | 0 <= k < |mints| :: s.entry.files == mints[k]
  }

  /** In every run that follows the rules, the marker means one mint's files, all of them. */
  ghost predicate MarkerSafe(mints: seq<Material>, rules: Rules) {
    forall now, moves | Scheduled(Start(mints, now), mints, moves, rules) ::
      MarkedWhole(Run(Start(mints, now), mints, moves), mints)
  }

  function Before(moves: seq<Move>): seq<Move>
    requires moves != []
  {
    moves[..|moves| - 1]
  }

  /** In every run that follows the rules, no step takes the marker away or changes a marked entry. */
  ghost predicate MarkerLasts(mints: seq<Material>, rules: Rules) {
    forall now, moves | moves != [] && Scheduled(Start(mints, now), mints, moves, rules) ::
      StaysMarked(Run(Start(mints, now), mints, Before(moves)), Run(Start(mints, now), mints, moves))
  }

  predicate StaysMarked(s: Cache, s': Cache) {
    s.finished ==> s'.finished && s'.entry == s.entry
  }

  /** Past its claim, one way or the other. */
  predicate Past(w: Worker) {
    match w.pc
    case CheckMarker | CopyOut | Mint | LookEntry | LookMarker | LookAge | RemoveStale | Claim => false
    case _ => true
  }

  /** Has found somebody's entry. */
  predicate Looking(w: Worker) {
    w.pc == LookMarker || Recovering(w)
  }

  /** Whoever made the entry is past its claim, and so is somebody besides each worker that found one. */
  predicate Owned(s: Cache) {
    && (s.entry.Dir? ==> s.entry.owner < |s.workers| && Past(s.workers[s.entry.owner]))
    && forall i | 0 <= i < |s.workers| && Looking(s.workers[i]) :: SomebodyPast(s, i)
  }

  predicate SomebodyPast(s: Cache, i: nat) {
    exists j | 0 <= j < |s.workers| && j != i :: Past(s.workers[j])
  }

  lemma PastStays(s: Cache, mints: seq<Material>, m: Move, j: nat)
    requires |mints| == |s.workers| && j < |s.workers| && Past(s.workers[j])
    ensures Past(Step(s, mints, m).workers[j])
  {
  }

  lemma StillPast(s: Cache, mints: seq<Material>, m: Move, i: nat)
    requires |mints| == |s.workers| && i < |s.workers| && Owned(s) && Looking(Step(s, mints, m).workers[i])
    ensures SomebodyPast(Step(s, mints, m), i)
  {
    var j: nat;
    if Looking(s.workers[i]) {
      j :| j < |s.workers| && j != i && Past(s.workers[j]);
    } else {
      j := s.entry.owner;
    }
    PastStays(s, mints, m, j);
    hide Step, Owned, Past;
  }

  lemma OwnedStep(s: Cache, mints: seq<Material>, m: Move)
    requires |mints| == |s.workers| && Owned(s)
    ensures Owned(Step(s, mints, m))
  {
    hide SomebodyPast;
    var s' := Step(s, mints, m);
    forall i | 0 <= i < |s'.workers| && Looking(s'.workers[i]) ensures SomebodyPast(s', i) {
      StillPast(s, mints, m, i);
    }
    if s.entry.Dir? {
      PastStays(s, mints, m, s.entry.owner);
    }
    hide Looking;
  }

  /** So two workers never recover at once. */
  lemma OwnedApart(s: Cache, m: Move, rules: Rules)
    requires Owned(s) && |s.workers| <= 2 && Allowed(s, m, rules)
    ensures Allowed(s, m, rules.(apart := true))
  {
  }

  lemma {:induction false} TwoKeepApart(mints: seq<Material>, now: nat, moves: seq<Move>, rules: Rules)
    requires |mints| <= 2 && Scheduled(Start(mints, now), mints, moves, rules)
    ensures Scheduled(Start(mints, now), mints, moves, rules.(apart := true))
    ensures Owned(Run(Start(mints, now), mints, moves))
    decreases |moves|
  {
    hide Step, Allowed, Owned;
    if moves == [] {
      assert Owned(Start(mints, now)) by { StartIsOwned(mints, now); }
    } else {
      var init := moves[..|moves| - 1];
      TwoKeepApart(mints, now, init, rules);
      OwnedApart(Run(Start(mints, now), mints, init), Last(moves), rules);
      OwnedStep(Run(Start(mints, now), mints, init), mints, Last(moves));
    }
  }

  lemma StartIsOwned(mints: seq<Material>, now: nat)
    ensures Owned(Start(mints, now))
  {
  }

  /** One worker alone: a marker means its own files, and before it claims there is no entry. */
  predicate Lone(s: Cache, mints: seq<Material>) {
    && |s.workers| == |mints| <= 1
    && (s.finished ==> |mints| == 1 && s.entry.Dir? && s.entry.files == mints[0]
                       && (s.workers[0].pc == Published || s.workers[0].pc == Dead))
    && (|mints| == 1 ==> LoneWorker(s.entry, s.workers[0], mints[0]))
  }

  predicate LoneWorker(entry: Slot, w: Worker, minted: Material) {
    match w.pc
    case CheckMarker | Mint => w.dir == map[] && entry.Absent?
    case LookEntry | Claim => w.dir == minted && entry.Absent?
    case Fill => entry.Dir? && w.dir == minted && entry.files.Keys == w.copied && Part(entry.files, minted)
    case CopyOut | LookMarker | LookAge | RemoveStale | Hit => false
    case _ => true
  }

  lemma LoneStep(s: Cache, mints: seq<Material>, m: Move)
    requires Lone(s, mints)
    ensures Lone(Step(s, mints, m), mints) && StaysMarked(s, Step(s, mints, m))
  {
    if m.Act? && m.who < |mints| {
      var w := s.workers[0];
      if w.pc == Mint {
        MintOverwrites(w.dir, mints[0]);
      } else if w.pc == Fill && w.dir.Keys <= w.copied {
        WholeIs(s.entry.files, mints[0]);
      }
    }
  }

  lemma {:induction false} LoneKeeps(mints: seq<Material>, now: nat, moves: seq<Move>)
    requires |mints| <= 1
    ensures Lone(Run(Start(mints, now), mints, moves), mints)
    decreases |moves|
  {
    hide Step, Lone;
    if moves == [] {
      assert Lone(Start(mints, now), mints) by { StartIsLone(mints, now); }
    } else {
      var init := moves[..|moves| - 1];
      LoneKeeps(mints, now, init);
      LoneStep(Run(Start(mints, now), mints, init), mints, Last(moves));
    }
  }

  lemma StartIsLone(mints: seq<Material>, now: nat)
    requires |mints| <= 1
    ensures Lone(Start(mints, now), mints)
  {
  }

  /** Three workers whose recoveries may overlap: the third removes what the second has published. */
  lemma ThreeCanOverlap(mints: seq<Material>, rules: Rules) returns (moves: seq<Move>)
    requires |mints| >= 3 && !rules.apart && !rules.spare
    ensures Scheduled(Start(mints, 0), mints, moves, rules)
    ensures
      var s := Run(Start(mints, 0), mints, moves);
      s.finished && s.entry.Absent?
    ensures moves != [] && Run(Start(mints, 0), mints, Before(moves)).finished
    ensures Run(Start(mints, 0), mints, Before(moves)).entry.Dir?
  {
    hide Run, Scheduled;
    var s0 := Start(mints, 0);
    moves := [];
    NoMoves(s0, mints, rules);
    moves := ToFill(s0, mints, moves, 0, rules);
    moves := One(s0, mints, moves, Die(0), rules);
    moves := One(s0, mints, moves, Tick(STALE_CLAIM), rules);
    moves := ToRemoval(s0, mints, moves, 1, rules);
    moves := ToRemoval(s0, mints, moves, 2, rules);
    moves := Recovers(s0, mints, moves, 1, rules);
    var published := moves;
    moves := One(s0, mints, moves, Act(2, "", false), rules);
    assert Before(moves) == published;
  }

  /** Two workers of which one's copy may fail: its cleanup removes what the other has published. */
  lemma FailedCopyRemoves(mints: seq<Material>, rules: Rules) returns (moves: seq<Move>)
    requires |mints| >= 2 && !rules.whole && !rules.spare
    ensures Scheduled(Start(mints, 0), mints, moves, rules)
    ensures
      var s := Run(Start(mints, 0), mints, moves);
      s.finished && s.entry.Absent?
    ensures moves != [] && Run(Start(mints, 0), mints, Before(moves)).finished
    ensures Run(Start(mints, 0), mints, Before(moves)).entry.Dir?
  {
    hide Run, Scheduled;
    var s0 := Start(mints, 0);
    moves := [];
    NoMoves(s0, mints, rules);
    moves := ToFill(s0, mints, moves, 0, rules);
    moves := One(s0, mints, moves, Fail(0), rules);
    moves := One(s0, mints, moves, Tick(STALE_CLAIM), rules);
    moves := ToRemoval(s0, mints, moves, 1, rules);
    moves := Recovers(s0, mints, moves, 1, rules);
    var published := moves;
    moves := One(s0, mints, moves, Act(0, "", false), rules);
    assert Before(moves) == published;
  }

  /** Two workers, one of them so late that the claim it found unfinished is published and old by its test. */
  lemma LateRecoveryRemoves(mints: seq<Material>, rules: Rules) returns (moves: seq<Move>)
    requires |mints| >= 2 && !Timely(rules) && !rules.spare
    ensures Scheduled(Start(mints, 0), mints, moves, rules)
    ensures
      var s := Run(Start(mints, 0), mints, moves);
      s.finished && s.entry.Absent?
    ensures moves != [] && Run(Start(mints, 0), mints, Before(moves)).finished
    ensures Run(Start(mints, 0), mints, Before(moves)).entry.Dir?
  {
    hide Run, Scheduled;
    var s0 := Start(mints, 0);
    moves := [];
    NoMoves(s0, mints, rules);
    moves := ToFill(s0, mints, moves, 0, rules);
    moves := ToTest(s0, mints, moves, 1, rules);
    moves := PublishAll(s0, mints, moves, 0, rules);
    moves := TestsLate(s0, mints, moves, rules);
    var published := moves;
    moves := One(s0, mints, moves, Act(1, "", false), rules);
    assert Before(moves) == published;
  }

  lemma TestsLate(s0: Cache, mints: seq<Material>, before: seq<Move>, rules: Rules) returns (moves: seq<Move>)
    requires |mints| == |s0.workers| && |mints| >= 2 && !Timely(rules) && !rules.spare
    requires Scheduled(s0, mints, before, rules)
    requires
      var s := Run(s0, mints, before);
      && s.finished && s.entry.Dir? && s.entry.mtime <= s.now
      && s.workers[0].pc == Published && s.workers[1].pc == LookAge && s.workers[1].lookedAt == s.now
      && forall j | 2 <= j < |mints| :: s.workers[j].pc == CheckMarker
    ensures Scheduled(s0, mints, moves, rules)
    ensures
      var s, s' := Run(s0, mints, before), Run(s0, mints, moves);
      s'.finished && s'.entry.Dir? && s'.workers[1].pc == RemoveStale
  {
    hide Run, Scheduled;
    moves := One(s0, mints, before, Tick(STALE_CLAIM), rules);
    moves := One(s0, mints, moves, Act(1, "", false), rules);
  }

  /** The schedules on which the cache keeps its promise, whatever happens in them. */
  predicate Enough(mints: seq<Material>, rules: Rules) {
    || |mints| <= 1
    || rules.spare
    || (Timely(rules) && rules.whole && (rules.apart || |mints| <= 2))
  }

  lemma EnoughSpares(mints: seq<Material>, now: nat, moves: seq<Move>, rules: Rules)
    requires SameNames(mints) && Enough(mints, rules) && |mints| > 1
    requires Scheduled(Start(mints, now), mints, moves, rules)
    ensures Reaches(Run(Start(mints, now), mints, moves), mints, now, moves)
  {
    if rules.spare {
      ScheduledLooser(Start(mints, now), mints, moves, rules, SPARING);
    } else {
      var timed := Rules(rules.grace, true, true, false);
      if !rules.apart {
        TwoKeepApart(mints, now, moves, rules);
      }
      ScheduledLooser(Start(mints, now), mints, moves, rules.(apart := true), timed);
      RulesSpare(mints, now, moves, rules.grace.value);
    }
  }

  /** A run that breaks it, whenever that is not enough. */
  lemma NotEnough(mints: seq<Material>, rules: Rules) returns (moves: seq<Move>)
    requires !Enough(mints, rules)
    ensures Scheduled(Start(mints, 0), mints, moves, rules)
    ensures
      var s := Run(Start(mints, 0), mints, moves);
      s.finished && s.entry.Absent?
    ensures moves != [] && Run(Start(mints, 0), mints, Before(moves)).finished
    ensures Run(Start(mints, 0), mints, Before(moves)).entry.Dir?
  {
    hide Run, Scheduled, Start;
    if !Timely(rules) {
      moves := LateRecoveryRemoves(mints, rules);
    } else if !rules.whole {
      moves := FailedCopyRemoves(mints, rules);
    } else {
      moves := ThreeCanOverlap(mints, rules);
    }
  }

  /**
   * What must be assumed: the marker means one whole mint in every run exactly when there is one worker, or no
   * removal hits; or publishers and recoveries are on time, no copy fails half-way, and either tests and
   * removals are kept apart or there are only two workers.
   */
  lemma MarkerSafeIff(mints: seq<Material>, rules: Rules)
    requires SameNames(mints)
    ensures MarkerSafe(mints, rules) <==> Enough(mints, rules)
  {
    hide Run, Scheduled, Start, Enough, Timely;
    if Enough(mints, rules) {
      forall now, moves | Scheduled(Start(mints, now), mints, moves, rules)
        ensures MarkedWhole(Run(Start(mints, now), mints, moves), mints)
      {
        var s := Run(Start(mints, now), mints, moves);
        if |mints| <= 1 {
          LoneKeeps(mints, now, moves);
        } else if s.finished {
          EnoughSpares(mints, now, moves, rules);
          var k := MarkerMeansWhole(s, mints, now, moves);
        }
      }
    } else {
      var moves := NotEnough(mints, rules);
      assert !MarkedWhole(Run(Start(mints, 0), mints, moves), mints);
    }
  }

  /** Exactly then, too, a marked entry is never touched again. */
  lemma MarkerLastsIff(mints: seq<Material>, rules: Rules)
    requires SameNames(mints)
    ensures MarkerLasts(mints, rules) <==> Enough(mints, rules)
  {
    hide Run, Scheduled, Start, Enough, Timely;
    if Enough(mints, rules) {
      forall now, moves | moves != [] && Scheduled(Start(mints, now), mints, moves, rules)
        ensures StaysMarked(Run(Start(mints, now), mints, Before(moves)), Run(Start(mints, now), mints, moves))
      {
        StaysMarkedHere(mints, now, moves, rules);
      }
    } else {
      var moves := NotEnough(mints, rules);
      assert !StaysMarked(Run(Start(mints, 0), mints, Before(moves)), Run(Start(mints, 0), mints, moves));
    }
  }

  lemma StaysMarkedHere(mints: seq<Material>, now: nat, moves: seq<Move>, rules: Rules)
    requires SameNames(mints) && Enough(mints, rules)
    requires moves != [] && Scheduled(Start(mints, now), mints, moves, rules)
    ensures StaysMarked(Run(Start(mints, now), mints, Before(moves)), Run(Start(mints, now), mints, moves))
  {
    if |mints| <= 1 {
      LoneKeeps(mints, now, Before(moves));
      hide Step, Enough;
      LoneStep(Run(Start(mints, now), mints, Before(moves)), mints, Last(moves));
    } else if Run(Start(mints, now), mints, Before(moves)).finished {
      EnoughSpares(mints, now, moves, rules);
      FinishedNeverChanges(mints, now, moves, |moves| - 1);
    }
  }

  // ---------------------------------------------------------------------------
  // Main result: a removal that hits is the one thing that can go wrong.
  // ---------------------------------------------------------------------------

  /** One more worker calls `mintCached`. */
  function Joined(s: Cache): Cache {
    s.(workers := s.workers + [Worker(CheckMarker, map[], {}, 0, 0)])
  }

  /** After this step, with a newcomer and no removal that hits, a marked entry comes to be changed. */
  ghost predicate Damages(s: Cache, mints: seq<Material>, m: Move, minted: Material, more: seq<Move>)
    requires |mints| == |s.workers|
  {
    var before, all := Joined(s), mints + [minted];
    var after := Step(before, all, m);
    && SameNames(all) && Scheduled(after, all, more, SPARING)
    && if more == [] then !StaysMarked(before, after)
       else !StaysMarked(Run(after, all, Before(more)), Run(after, all, more))
  }

  lemma {:induction false} SparingKeeps(s: Cache, mints: seq<Material>, moves: seq<Move>)
    requires |mints| == |s.workers| && Inv(s, mints) && Scheduled(s, mints, moves, SPARING)
    ensures Inv(Run(s, mints, moves), mints)
    ensures moves != [] ==> StaysMarked(Run(s, mints, Before(moves)), Run(s, mints, moves))
    decreases |moves|
  {
    hide Inv, Step, Allowed;
    if moves != [] {
      var before := Run(s, mints, Before(moves));
      SparingKeeps(s, mints, Before(moves));
      StepKeeps(before, mints, Last(moves));
      if before.finished {
        StepKeepsFinished(before, mints, Last(moves));
      }
    }
  }

  lemma JoinedKeeps(s: Cache, mints: seq<Material>, minted: Material)
    requires Inv(s, mints) && SameNames(mints + [minted])
    ensures Inv(Joined(s), mints + [minted])
  {
    var s', all := Joined(s), mints + [minted];
    forall i | 0 <= i < |s'.workers| ensures WorkerOk(s', s'.workers[i], i, all[i]) {
      if i < |s.workers| {
        assert WorkerOk(s, s.workers[i], i, mints[i]);
      }
    }
  }

  lemma HarmlessStep(s: Cache, mints: seq<Material>, m: Move, minted: Material, more: seq<Move>)
    requires Inv(s, mints) && !(m.Act? && Hits(s, m.who))
    ensures !Damages(s, mints, m, minted, more)
  {
    var before, all := Joined(s), mints + [minted];
    if SameNames(all) && Scheduled(Step(before, all, m), all, more, SPARING) {
      JoinedKeeps(s, mints, minted);
      assert Allowed(before, m, SPARING);
      StepKeeps(before, all, m);
      if before.finished {
        StepKeepsFinished(before, all, m);
      }
      hide Inv, Step;
      SparingKeeps(Step(before, all, m), all, more);
    }
  }

  /** Different key material under the same names. */
  function Other(minted: Material): Material {
    map n | n in minted :: minted[n] + [0]
  }

  lemma OtherNames(mints: seq<Material>, o: nat)
    requires SameNames(mints) && o < |mints|
    ensures SameNames(mints + [Other(mints[o])])
  {
    assert Other(mints[o]).Keys == mints[o].Keys;
  }

  /** Two publishers in one directory: one marks its own, and the other goes on copying. */
  lemma TwoInOneDirectory(s: Cache, mints: seq<Material>, o: nat, j: nat, name: string) returns (more: seq<Move>)
    requires |mints| == |s.workers| && o < |mints| && j < |mints| && o != j
    requires !s.finished && s.entry.Absent? && s.workers[j] == Worker(CheckMarker, map[], {}, 0, 0)
    requires s.workers[o].pc == Fill && s.workers[o].dir == mints[o] && name in mints[o]
    requires name in mints[j] && mints[j][name] != mints[o][name]
    ensures more != [] && Scheduled(s, mints, more, SPARING)
    ensures !StaysMarked(Run(s, mints, Before(more)), Run(s, mints, more))
  {
    hide Run, Scheduled;
    NoMoves(s, mints, SPARING);
    more := ToFill(s, mints, [], j, SPARING);
    more := PublishAll(s, mints, more, o, SPARING);
    var marked := Run(s, mints, more);
    var before := more;
    more := One(s, mints, before, Act(j, name, false), SPARING);
    assert Before(more) == before;
    assert Run(s, mints, more).entry.files[name] == mints[j][name];
  }

  lemma HitDamages(s: Cache, mints: seq<Material>, m: Move) returns (minted: Material, more: seq<Move>)
    requires Inv(s, mints) && m.Act? && Hits(s, m.who) && mints[0] != map[]
    ensures Damages(s, mints, m, minted, more)
  {
    var o: nat := if s.finished then 0 else s.entry.owner;
    minted, more := Other(mints[o]), [];
    OtherNames(mints, o);
    var before, all := Joined(s), mints + [minted];
    var after := Step(before, all, m);
    if !s.finished {
      assert WorkerOk(s, s.workers[o], o, mints[o]);
      var name :| name in mints[0];
      assert name in mints[o];
      hide Inv, SameNames;
      more := TwoInOneDirectory(after, all, o, |mints|, name);
    }
  }

  /**
   * In any run in which no removal has hit, a next step is dangerous exactly when it is a removal that does: it
   * then changes a marked entry, or one more worker and no further such removal can make it change. After any
   * other step nothing can.
   */
  lemma HitsIff(s: Cache, mints: seq<Material>, now: nat, moves: seq<Move>, m: Move)
    requires Reaches(s, mints, now, moves) && mints != [] && mints[0] != map[]
    ensures m.Act? && Hits(s, m.who) <==> exists minted, more :: Damages(s, mints, m, minted, more)
  {
    RunKeeps(s, mints, now, moves);
    hide Inv, Reaches, Damages, Hits;
    if m.Act? && Hits(s, m.who) {
      var minted, more := HitDamages(s, mints, m);
    } else {
      forall minted, more ensures !Damages(s, mints, m, minted, more) {
        HarmlessStep(s, mints, m, minted, more);
      }
    }
  }
}
