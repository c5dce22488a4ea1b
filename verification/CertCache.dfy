/**
 * `e2e/src/harness/cert-cache.ts`: one cache entry, and any number of workers calling `mintCached`
 * for it at once.
 *
 * One step is one file-system call of one worker: there is no lock but the exclusive `mkdir`, and the
 * marker is written last. Workers may die anywhere. Time passes only by `Tick`.
 */
module CertCache {
  import opened Base

  /** The files of one minted directory, by path. */
  type Material = map<string, seq<byte>>

  /** `owner` is a history: whose `mkdir` made the directory. No step reads it. */
  datatype Slot = Absent | Dir(files: Material, mtime: nat, owner: nat)

  datatype Pc =
    | CheckMarker
    | CopyOut
    | Mint
    | LookEntry
    | LookMarker
    | LookAge
    | RemoveStale
    | Claim
    | Fill
    | CleanEntry
    | CleanMarker
    | Hit
    | Kept
    | Published
    | Dead

  /** `copied` is what `cpSync` has copied so far; the two times are histories no step reads. */
  datatype Worker = Worker(pc: Pc, dir: Material, copied: set<string>, lookedAt: nat, claimedAt: nat)

  datatype Cache = Cache(entry: Slot, finished: bool, now: nat, workers: seq<Worker>)

  /** `touched`: whether copying this file also changed the entry's own modification time. */
  datatype Move =
    | Tick(ms: nat)
    | Act(who: nat, name: string, touched: bool)
    | Fail(who: nat)
    | Die(who: nat)

  const STALE_CLAIM: nat := 60 * 1000

  /** The next file-system call of `mintCached` or `publish`; `minted` is what this worker's mint writes. */
  function Call(s: Cache, w: Worker, who: nat, minted: Material, name: string, touched: bool): (Slot, bool, Worker) {
    match w.pc
    case CheckMarker => (s.entry, s.finished, w.(pc := if s.finished then CopyOut else Mint))
    case CopyOut =>
      if s.entry.Absent? then (s.entry, s.finished, w.(pc := Mint))
      else if s.entry.files.Keys <= w.dir.Keys then (s.entry, s.finished, w.(pc := Hit))
      else if name in s.entry.files && name !in w.dir then
        (s.entry, s.finished, w.(dir := w.dir[name := s.entry.files[name]]))
      else (s.entry, s.finished, w)
    case Mint => (s.entry, s.finished, w.(dir := w.dir + minted, pc := LookEntry))
    case LookEntry => (s.entry, s.finished, w.(pc := if s.entry.Dir? then LookMarker else Claim))
    case LookMarker =>
      (s.entry, s.finished, if s.finished then w.(pc := Claim) else w.(pc := LookAge, lookedAt := s.now))
    case LookAge =>
      // `statSync` throws when the entry is gone.
      (s.entry, s.finished,
       w.(pc := if s.entry.Absent? || s.now - s.entry.mtime < STALE_CLAIM then Kept else RemoveStale))
    case RemoveStale => (Absent, s.finished, w.(pc := Claim))
    case Claim =>
      // EEXIST: another worker owns this key.
      if s.entry.Dir? then (s.entry, s.finished, w.(pc := Kept))
      else (Dir(map[], s.now, who), s.finished, w.(pc := Fill, copied := {}, claimedAt := s.now))
    case Fill =>
      if s.entry.Absent? then (s.entry, s.finished, w.(pc := CleanEntry))
      else if w.dir.Keys <= w.copied then (s.entry, true, w.(pc := Published))
      else if name in w.dir && name !in w.copied then
        (s.entry.(files := s.entry.files[name := w.dir[name]], mtime := if touched then s.now else s.entry.mtime),
         s.finished, w.(copied := w.copied + {name}))
      else (s.entry, s.finished, w)
    case CleanEntry => (Absent, s.finished, w.(pc := CleanMarker))
    case CleanMarker => (s.entry, false, w.(pc := Kept))
    case Hit | Kept | Published | Dead => (s.entry, s.finished, w)
  }

  /** Where a worker goes when its call throws. */
  function Thrown(pc: Pc): Pc {
    match pc
    case CopyOut => Mint
    case Mint => Dead
    case LookEntry | LookMarker | LookAge | RemoveStale | Claim => Kept
    case Fill => CleanEntry
    case CleanEntry | CleanMarker => Dead
    case _ => pc
  }

  function Step(s: Cache, mints: seq<Material>, m: Move): (s': Cache)
    requires |mints| == |s.workers|
    ensures |s'.workers| == |s.workers|
  {
    match m
    case Tick(ms) => s.(now := s.now + ms)
    case Act(i, name, touched) =>
      if i >= |s.workers| then s
      else
        var (entry, finished, w) := Call(s, s.workers[i], i, mints[i], name, touched);
        s.(entry := entry, finished := finished, workers := s.workers[i := w])
    case Fail(i) =>
      if i >= |s.workers| then s
      else s.(workers := s.workers[i := s.workers[i].(pc := Thrown(s.workers[i].pc))])
    case Die(i) =>
      if i >= |s.workers| then s
      else s.(workers := s.workers[i := s.workers[i].(pc := Dead)])
  }

  function Start(mints: seq<Material>, now: nat): (s: Cache)
    ensures |s.workers| == |mints|
  {
    Cache(Absent, false, now, seq(|mints|, i => Worker(CheckMarker, map[], {}, 0, 0)))
  }

  function Run(s: Cache, mints: seq<Material>, moves: seq<Move>): (s': Cache)
    requires |mints| == |s.workers|
    ensures |s'.workers| == |mints|
  {
    if moves == [] then s else Step(Run(s, mints, moves[..|moves| - 1]), mints, Last(moves))
  }

  // ---------------------------------------------------------------------------
  // What may be assumed of a schedule.
  // ---------------------------------------------------------------------------

  /** Somebody is still copying into the entry. */
  predicate HeldLive(s: Cache) {
    s.entry.Dir? && s.entry.owner < |s.workers| && s.workers[s.entry.owner].pc == Fill
  }

  /** This worker's next call takes away what is being filled, or what is published. */
  predicate Hits(s: Cache, i: nat) {
    i < |s.workers| &&
    match s.workers[i].pc
    case RemoveStale | CleanEntry => s.entry.Dir? && (s.finished || HeldLive(s))
    case CleanMarker => s.finished
    case _ => false
  }

  /**
   * `grace`: live publishers fill their claims, and recoveries end, within the stale bound, this much of it
   * being the recoveries'. `apart`: nobody tests a claim's age while another is about to remove the one it
   * tested. `whole`: no copy into the entry fails half-way. `spare`: no removal hits.
   */
  datatype Rules = Rules(grace: Option<nat>, apart: bool, whole: bool, spare: bool)

  /** Any timing, failures and overlaps, as long as no removal hits. */
  const SPARING := Rules(None, false, false, true)

  predicate Timely(rules: Rules) {
    rules.grace.Some? && rules.grace.value < STALE_CLAIM
  }

  /** Between having found no marker and having removed the claim. */
  predicate Recovering(w: Worker) {
    w.pc == LookAge || w.pc == RemoveStale
  }

  /** A live publisher fills its claim, and a recovery ends, well inside the stale bound. */
  predicate OnTime(w: Worker, now: nat, grace: nat) {
    && (w.pc == Fill ==> now - w.claimedAt + grace < STALE_CLAIM)
    && (Recovering(w) ==> now - w.lookedAt <= grace)
  }

  predicate NobodyElseRemoves(s: Cache, w: nat) {
    forall j | 0 <= j < |s.workers| && j != w :: s.workers[j].pc != RemoveStale
  }

  predicate Allowed(s: Cache, m: Move, rules: Rules) {
    match m
    case Tick(ms) =>
      rules.grace.Some? ==>
        forall j | 0 <= j < |s.workers| :: OnTime(s.workers[j], s.now + ms, rules.grace.value)
    case Act(i, _, _) =>
      && (rules.apart && i < |s.workers| && s.workers[i].pc == LookAge ==> NobodyElseRemoves(s, i))
      && (rules.spare ==> !Hits(s, i))
    case Fail(i) => rules.whole && i < |s.workers| ==> s.workers[i].pc != Fill
    case Die(_) => true
  }

  predicate Scheduled(s: Cache, mints: seq<Material>, moves: seq<Move>, rules: Rules)
    requires |mints| == |s.workers|
  {
    moves == [] ||
    var before := moves[..|moves| - 1];
    Scheduled(s, mints, before, rules) && Allowed(Run(s, mints, before), Last(moves), rules)
  }

  predicate Looser(rules': Rules, rules: Rules) {
    && (rules'.grace == None || rules'.grace == rules.grace)
    && (rules'.apart ==> rules.apart) && (rules'.whole ==> rules.whole) && (rules'.spare ==> rules.spare)
  }

  lemma {:induction false} ScheduledLooser(
      s: Cache, mints: seq<Material>, moves: seq<Move>, rules: Rules, rules': Rules)
    requires |mints| == |s.workers| && Scheduled(s, mints, moves, rules) && Looser(rules', rules)
    ensures Scheduled(s, mints, moves, rules')
    decreases |moves|
  {
    if moves != [] {
      ScheduledLooser(s, mints, moves[..|moves| - 1], rules, rules');
    }
  }

  /** `dev-certs.sh` writes the same file names for the same request, with different key material. */
  predicate SameNames(mints: seq<Material>) {
    forall i, j | 0 <= i < |mints| && 0 <= j < |mints| :: mints[i].Keys == mints[j].Keys
  }

  // ---------------------------------------------------------------------------
  // The invariant, while no removal hits.
  // ---------------------------------------------------------------------------

  predicate Part(part: Material, whole: Material) {
    forall n | n in part :: n in whole && part[n] == whole[n]
  }

  /** Where a claim's owner is until it has published. */
  predicate Holding(pc: Pc) {
    pc == Fill || pc == CleanEntry || pc == Dead
  }

  predicate EntryOk(s: Cache, mints: seq<Material>)
    requires |mints| == |s.workers|
  {
    match s.entry
    case Absent => !s.finished
    case Dir(files, mtime, owner) =>
      && mtime <= s.now && owner < |mints|
      && (if s.finished then files == mints[owner]
          else Part(files, mints[owner]) && Holding(s.workers[owner].pc))
  }

  predicate FillOk(entry: Slot, finished: bool, now: nat, w: Worker, i: nat, minted: Material) {
    && entry.Dir? && entry.owner == i && !finished
    && w.copied <= w.dir.Keys && w.dir == minted
    && entry.files.Keys == w.copied && Part(entry.files, minted)
    && w.claimedAt <= entry.mtime <= now
  }

  predicate WorkerOk(s: Cache, w: Worker, i: nat, minted: Material) {
    match w.pc
    case CheckMarker => w.dir == map[]
    case CopyOut => s.finished && s.entry.Dir? && Part(w.dir, s.entry.files)
    case Mint => w.dir.Keys <= minted.Keys
    case LookEntry | LookMarker | LookAge | RemoveStale | Claim | CleanEntry | CleanMarker | Kept => w.dir == minted
    case Fill => FillOk(s.entry, s.finished, s.now, w, i, minted)
    case Hit => s.finished && s.entry.Dir? && w.dir == s.entry.files
    case Published => s.finished && s.entry.Dir? && s.entry.files == minted && w.dir == minted
    case Dead => true
  }

  predicate Inv(s: Cache, mints: seq<Material>) {
    && |mints| == |s.workers| && SameNames(mints) && EntryOk(s, mints)
    && forall i | 0 <= i < |s.workers| :: WorkerOk(s, s.workers[i], i, mints[i])
  }

  // ---------------------------------------------------------------------------
  // Every step that does not hit keeps it.
  // ---------------------------------------------------------------------------

  /** One worker moved to `w`, and the slot, the marker and the clock are what they now are. */
  function Moved(s: Cache, i: nat, entry: Slot, finished: bool, w: Worker): (s': Cache)
    requires i < |s.workers|
    ensures |s'.workers| == |s.workers|
  {
    s.(entry := entry, finished := finished, workers := s.workers[i := w])
  }

  /** A step of one worker that leaves the slot and the marker alone keeps everybody else's part. */
  lemma QuietMove(s: Cache, mints: seq<Material>, i: nat, w: Worker)
    requires Inv(s, mints) && i < |s.workers|
    requires WorkerOk(s, w, i, mints[i])
    requires Holding(s.workers[i].pc) ==> Holding(w.pc)
    ensures Inv(Moved(s, i, s.entry, s.finished, w), mints)
  {
    hide FillOk, Part;
    var s' := Moved(s, i, s.entry, s.finished, w);
    forall j | 0 <= j < |s.workers| ensures WorkerOk(s', s'.workers[j], j, mints[j]) {
      assert WorkerOk(s, s.workers[j], j, mints[j]);
    }
  }

  lemma RemovalKeeps(s: Cache, mints: seq<Material>, i: nat, pc: Pc)
    requires Inv(s, mints) && i < |s.workers| && !Hits(s, i)
    requires (s.workers[i].pc == RemoveStale && pc == Claim) || (s.workers[i].pc == CleanEntry && pc == CleanMarker)
    ensures Inv(Moved(s, i, Absent, s.finished, s.workers[i].(pc := pc)), mints)
  {
    var s' := Moved(s, i, Absent, s.finished, s.workers[i].(pc := pc));
    assert WorkerOk(s, s.workers[i], i, mints[i]);
    forall j | 0 <= j < |s.workers| ensures WorkerOk(s', s'.workers[j], j, mints[j]) {
      assert WorkerOk(s, s.workers[j], j, mints[j]);
    }
  }

  lemma ClaimKeeps(s: Cache, mints: seq<Material>, i: nat)
    requires Inv(s, mints) && i < |s.workers| && s.workers[i].pc == Claim && s.entry.Absent?
    ensures Inv(Moved(s, i, Dir(map[], s.now, i), s.finished,
                      s.workers[i].(pc := Fill, copied := {}, claimedAt := s.now)), mints)
  {
    var w := s.workers[i].(pc := Fill, copied := {}, claimedAt := s.now);
    var s' := Moved(s, i, Dir(map[], s.now, i), s.finished, w);
    assert WorkerOk(s, s.workers[i], i, mints[i]);
    forall j | 0 <= j < |s.workers| ensures WorkerOk(s', s'.workers[j], j, mints[j]) {
      assert WorkerOk(s, s.workers[j], j, mints[j]);
    }
  }

  lemma CopyKeeps(s: Cache, mints: seq<Material>, i: nat, name: string, touched: bool)
    requires Inv(s, mints) && i < |s.workers| && s.workers[i].pc == Fill && s.entry.Dir?
    requires name in s.workers[i].dir && name !in s.workers[i].copied
    ensures Inv(Moved(s, i,
                      s.entry.(files := s.entry.files[name := s.workers[i].dir[name]],
                               mtime := if touched then s.now else s.entry.mtime),
                      s.finished, s.workers[i].(copied := s.workers[i].copied + {name})), mints)
  {
    var w := s.workers[i];
    var mtime := if touched then s.now else s.entry.mtime;
    var entry := s.entry.(files := s.entry.files[name := w.dir[name]], mtime := mtime);
    var s' := Moved(s, i, entry, s.finished, w.(copied := w.copied + {name}));
    assert WorkerOk(s, w, i, mints[i]);
    forall j | 0 <= j < |s.workers| ensures WorkerOk(s', s'.workers[j], j, mints[j]) {
      assert WorkerOk(s, s.workers[j], j, mints[j]);
    }
  }

  lemma MarkKeeps(s: Cache, mints: seq<Material>, i: nat)
    requires Inv(s, mints) && i < |s.workers| && s.workers[i].pc == Fill
    requires s.workers[i].dir.Keys <= s.workers[i].copied
    ensures Inv(Moved(s, i, s.entry, true, s.workers[i].(pc := Published)), mints)
    ensures s.entry.Dir? && s.entry.files == mints[i]
  {
    var w := s.workers[i];
    var s' := Moved(s, i, s.entry, true, w.(pc := Published));
    assert WorkerOk(s, w, i, mints[i]);
    WholeIs(s.entry.files, mints[i]);
    forall j | 0 <= j < |s.workers| ensures WorkerOk(s', s'.workers[j], j, mints[j]) {
      assert WorkerOk(s, s.workers[j], j, mints[j]);
    }
  }

  lemma WholeIs(part: Material, whole: Material)
    requires Part(part, whole) && whole.Keys <= part.Keys
    ensures part == whole
  {
  }

  lemma MintOverwrites(dir: Material, minted: Material)
    requires dir.Keys <= minted.Keys
    ensures dir + minted == minted
  {
  }

  lemma ActKeeps(s: Cache, mints: seq<Material>, i: nat, name: string, touched: bool)
    requires Inv(s, mints) && Allowed(s, Act(i, name, touched), SPARING)
    ensures Inv(Step(s, mints, Act(i, name, touched)), mints)
  {
    if i < |s.workers| {
      var w := s.workers[i];
      assert WorkerOk(s, w, i, mints[i]);
      if w.pc == RemoveStale {
        RemovalKeeps(s, mints, i, Claim);
      } else if w.pc == CleanEntry {
        RemovalKeeps(s, mints, i, CleanMarker);
      } else if w.pc == Claim && s.entry.Absent? {
        ClaimKeeps(s, mints, i);
      } else if w.pc == Fill {
        FillKeeps(s, mints, i, name, touched);
      } else {
        hide Inv;
        QuietCall(s, mints, i, name, touched);
      }
    }
  }

  lemma FillKeeps(s: Cache, mints: seq<Material>, i: nat, name: string, touched: bool)
    requires Inv(s, mints) && i < |s.workers| && s.workers[i].pc == Fill
    ensures Inv(Step(s, mints, Act(i, name, touched)), mints)
  {
    var w := s.workers[i];
    assert WorkerOk(s, w, i, mints[i]);
    if w.dir.Keys <= w.copied {
      MarkKeeps(s, mints, i);
    } else if name in w.dir && name !in w.copied {
      CopyKeeps(s, mints, i, name, touched);
    } else {
      assert Step(s, mints, Act(i, name, touched)) == s;
    }
    hide Inv;
  }

  lemma QuietCall(s: Cache, mints: seq<Material>, i: nat, name: string, touched: bool)
    requires Inv(s, mints) && Allowed(s, Act(i, name, touched), SPARING) && i < |s.workers|
    requires s.workers[i].pc != RemoveStale && s.workers[i].pc != CleanEntry && s.workers[i].pc != Fill
    requires s.workers[i].pc == Claim ==> s.entry.Dir?
    ensures Inv(Step(s, mints, Act(i, name, touched)), mints)
  {
    var w := s.workers[i];
    assert WorkerOk(s, w, i, mints[i]);
    if w.pc == Mint {
      MintOverwrites(w.dir, mints[i]);
    } else if w.pc == CopyOut && s.entry.files.Keys <= w.dir.Keys {
      WholeIs(w.dir, s.entry.files);
    }
    var w' := Call(s, w, i, mints[i], name, touched).2;
    assert WorkerOk(s, w', i, mints[i]);
    assert SameNames(mints);
    QuietMove(s, mints, i, w');
    hide Inv;
  }

  lemma TickKeeps(s: Cache, mints: seq<Material>, ms: nat)
    requires Inv(s, mints) && Allowed(s, Tick(ms), SPARING)
    ensures Inv(s.(now := s.now + ms), mints)
  {
    var s' := s.(now := s.now + ms);
    forall j | 0 <= j < |s.workers| ensures WorkerOk(s', s'.workers[j], j, mints[j]) {
      assert WorkerOk(s, s.workers[j], j, mints[j]);
    }
  }

  lemma StepKeeps(s: Cache, mints: seq<Material>, m: Move)
    requires Inv(s, mints) && Allowed(s, m, SPARING)
    ensures Inv(Step(s, mints, m), mints)
  {
    match m
    case Tick(ms) => TickKeeps(s, mints, ms);
    case Act(i, name, touched) => ActKeeps(s, mints, i, name, touched);
    case Fail(i) =>
      if i < |s.workers| {
        assert WorkerOk(s, s.workers[i], i, mints[i]);
        QuietMove(s, mints, i, s.workers[i].(pc := Thrown(s.workers[i].pc)));
      }
    case Die(i) =>
      if i < |s.workers| {
        QuietMove(s, mints, i, s.workers[i].(pc := Dead));
      }
  }

  /** Once the marker is there, no such step changes the entry or takes the marker away. */
  lemma StepKeepsFinished(s: Cache, mints: seq<Material>, m: Move)
    requires Inv(s, mints) && Allowed(s, m, SPARING) && s.finished
    ensures Step(s, mints, m).finished && Step(s, mints, m).entry == s.entry
  {
    if m.Act? && m.who < |s.workers| {
      assert WorkerOk(s, s.workers[m.who], m.who, mints[m.who]);
    }
  }

  // ---------------------------------------------------------------------------
  // Main results: safety over every run in which no removal hits.
  // ---------------------------------------------------------------------------

  /** A run that starts on an empty cache and in which no removal hits, whatever else fails or is late. */
  predicate Reaches(s: Cache, mints: seq<Material>, now: nat, moves: seq<Move>) {
    && SameNames(mints) && Scheduled(Start(mints, now), mints, moves, SPARING)
    && s == Run(Start(mints, now), mints, moves)
  }

  lemma {:induction false} RunKeeps(s: Cache, mints: seq<Material>, now: nat, moves: seq<Move>)
    requires Reaches(s, mints, now, moves)
    ensures Inv(s, mints)
    decreases |moves|
  {
    hide Step, Allowed;
    if moves == [] {
      StartKeeps(mints, now);
    } else {
      var before := Run(Start(mints, now), mints, moves[..|moves| - 1]);
      RunKeeps(before, mints, now, moves[..|moves| - 1]);
      StepKeeps(before, mints, Last(moves));
    }
  }

  lemma StartKeeps(mints: seq<Material>, now: nat)
    requires SameNames(mints)
    ensures Inv(Start(mints, now), mints)
  {
  }

  /** A marker means that the entry holds exactly one mint's files: all of them, and nobody else's. */
  lemma MarkerMeansWhole(s: Cache, mints: seq<Material>, now: nat, moves: seq<Move>) returns (k: nat)
    requires Reaches(s, mints, now, moves) && s.finished
    ensures k < |mints| && s.entry.Dir? && s.entry.files == mints[k]
  {
    RunKeeps(s, mints, now, moves);
    k := s.entry.owner;
  }

  /** And it never changes again, whatever runs on. */
  lemma {:induction false} FinishedNeverChanges(mints: seq<Material>, now: nat, moves: seq<Move>, n: nat)
    requires n <= |moves| && Reaches(Run(Start(mints, now), mints, moves), mints, now, moves)
    requires Run(Start(mints, now), mints, moves[..n]).finished
    ensures Run(Start(mints, now), mints, moves).finished
    ensures Run(Start(mints, now), mints, moves).entry == Run(Start(mints, now), mints, moves[..n]).entry
    decreases |moves|
  {
    hide Step, Allowed;
    if n == |moves| {
      assert moves[..n] == moves;
    } else {
      var before := moves[..|moves| - 1];
      assert before[..n] == moves[..n];
      FinishedNeverChanges(mints, now, before, n);
      RunKeeps(Run(Start(mints, now), mints, before), mints, now, before);
      StepKeepsFinished(Run(Start(mints, now), mints, before), mints, Last(moves));
    }
  }

  /**
   * Every hit handed out one whole mint, the same one to everybody; a call that minted kept exactly
   * what it minted.
   */
  lemma EveryCallGetsOneMint(s: Cache, mints: seq<Material>, now: nat, moves: seq<Move>, i: nat)
    requires Reaches(s, mints, now, moves) && i < |mints|
    ensures s.workers[i].pc == Hit ==>
              && s.finished && s.entry.Dir? && s.entry.owner < |mints|
              && s.workers[i].dir == s.entry.files == mints[s.entry.owner]
    ensures s.workers[i].pc == Kept || s.workers[i].pc == Published ==> s.workers[i].dir == mints[i]
    ensures s.workers[i].pc == Published ==> s.finished && s.entry.Dir? && s.entry.files == mints[i]
  {
    RunKeeps(s, mints, now, moves);
    assert WorkerOk(s, s.workers[i], i, mints[i]);
  }

  // ---------------------------------------------------------------------------
  // Main result: schedules in which no removal hits.
  // ---------------------------------------------------------------------------

  /** What keeping to the stale bound, to whole copies and to removals apart from tests adds. */
  predicate Timed(s: Cache, grace: nat) {
    && grace < STALE_CLAIM
    && (forall i | 0 <= i < |s.workers| :: WorkerTimed(s, s.workers[i], grace))
    && forall i | 0 <= i < |s.workers| && s.workers[i].pc == RemoveStale :: NobodyElseRemoves(s, i)
  }

  predicate WorkerTimed(s: Cache, w: Worker, grace: nat) {
    match w.pc
    case LookAge =>
      && w.lookedAt <= s.now <= w.lookedAt + grace
      && (s.finished ==> s.entry.Dir? && w.lookedAt + grace < s.entry.mtime + STALE_CLAIM)
    case RemoveStale =>
      !s.finished && s.entry.Dir? && s.entry.owner < |s.workers| && s.workers[s.entry.owner].pc == Dead
    case Fill => s.now - w.claimedAt + grace < STALE_CLAIM
    case CleanEntry | CleanMarker => false
    case _ => true
  }

  lemma TimedSpares(s: Cache, grace: nat, i: nat)
    requires Timed(s, grace)
    ensures !Hits(s, i)
  {
    if i < |s.workers| {
      assert WorkerTimed(s, s.workers[i], grace);
    }
  }

  /** A worker's call that leaves the entry and the marker alone. */
  lemma TimedQuiet(s: Cache, grace: nat, i: nat, w: Worker)
    requires Timed(s, grace) && i < |s.workers| && WorkerTimed(s, w, grace)
    requires w.pc == RemoveStale ==> s.workers[i].pc == RemoveStale || NobodyElseRemoves(s, i)
    requires s.workers[i].pc == Dead ==> w.pc == Dead
    ensures Timed(Moved(s, i, s.entry, s.finished, w), grace)
  {
    var s' := Moved(s, i, s.entry, s.finished, w);
    forall j | 0 <= j < |s.workers| ensures WorkerTimed(s', s'.workers[j], grace) {
      assert WorkerTimed(s, s.workers[j], grace);
    }
  }

  /** A worker's call that changes the entry or the marker, when nobody is about to remove what is there. */
  lemma TimedLoud(s: Cache, grace: nat, i: nat, entry: Slot, finished: bool, w: Worker)
    requires Timed(s, grace) && i < |s.workers| && NobodyElseRemoves(s, i)
    requires WorkerTimed(s, w, grace) && w.pc != RemoveStale && w.pc != LookAge
    requires finished ==> entry.Dir? && s.now + grace < entry.mtime + STALE_CLAIM
    ensures Timed(Moved(s, i, entry, finished, w), grace)
  {
    var s' := Moved(s, i, entry, finished, w);
    forall j | 0 <= j < |s.workers| ensures WorkerTimed(s', s'.workers[j], grace) {
      assert WorkerTimed(s, s.workers[j], grace);
    }
  }

  lemma TimedAct(s: Cache, mints: seq<Material>, grace: nat, i: nat, name: string, touched: bool)
    requires Inv(s, mints) && Timed(s, grace) && i < |s.workers|
    requires Allowed(s, Act(i, name, touched), Rules(Some(grace), true, true, false))
    ensures Timed(Step(s, mints, Act(i, name, touched)), grace)
  {
    var w := s.workers[i];
    var (entry, finished, w') := Call(s, w, i, mints[i], name, touched);
    assert WorkerTimed(s, w, grace) && WorkerOk(s, w, i, mints[i]);
    hide SameNames, Part;
    if entry == s.entry && finished == s.finished {
      TimedQuiet(s, grace, i, w');
    } else {
      forall j | 0 <= j < |s.workers| && j != i ensures s.workers[j].pc != RemoveStale {
        assert WorkerTimed(s, s.workers[j], grace);
      }
      TimedLoud(s, grace, i, entry, finished, w');
    }
    hide Timed, WorkerTimed, Call;
  }

  lemma TimedStep(s: Cache, mints: seq<Material>, grace: nat, m: Move)
    requires Inv(s, mints) && Timed(s, grace) && Allowed(s, m, Rules(Some(grace), true, true, false))
    ensures Timed(Step(s, mints, m), grace)
  {
    match m
    case Tick(ms) =>
      forall j | 0 <= j < |s.workers| ensures WorkerTimed(s.(now := s.now + ms), s.workers[j], grace) {
        assert WorkerTimed(s, s.workers[j], grace) && OnTime(s.workers[j], s.now + ms, grace);
      }
    case Act(i, name, touched) => if i < |s.workers| { TimedAct(s, mints, grace, i, name, touched); }
    case Fail(i) =>
      if i < |s.workers| {
        assert WorkerTimed(s, s.workers[i], grace);
        TimedQuiet(s, grace, i, s.workers[i].(pc := Thrown(s.workers[i].pc)));
      }
    case Die(i) => if i < |s.workers| { TimedQuiet(s, grace, i, s.workers[i].(pc := Dead)); }
  }

  /**
   * The schedules of the file's comments: when live publishers and recoveries keep to the stale bound, no copy
   * fails half-way, and nobody tests an age between another's test and its removal, no removal hits.
   */
  lemma {:induction false} RulesSpare(mints: seq<Material>, now: nat, moves: seq<Move>, grace: nat)
    requires SameNames(mints) && grace < STALE_CLAIM
    requires Scheduled(Start(mints, now), mints, moves, Rules(Some(grace), true, true, false))
    ensures Reaches(Run(Start(mints, now), mints, moves), mints, now, moves)
    ensures Timed(Run(Start(mints, now), mints, moves), grace)
    decreases |moves|
  {
    hide Step, Timed, Hits, OnTime, Inv;
    if moves == [] {
      StartIsTimed(mints, now, grace);
    } else {
      var init, m := moves[..|moves| - 1], Last(moves);
      var s := Run(Start(mints, now), mints, init);
      RulesSpare(mints, now, init, grace);
      RunKeeps(s, mints, now, init);
      if m.Act? {
        TimedSpares(s, grace, m.who);
      }
      TimedStep(s, mints, grace, m);
    }
  }

  lemma StartIsTimed(mints: seq<Material>, now: nat, grace: nat)
    requires grace < STALE_CLAIM
    ensures Timed(Start(mints, now), grace)
  {
  }

  // ---------------------------------------------------------------------------
  // Main result: the cache does not wedge.
  // ---------------------------------------------------------------------------

  predicate OnlyBy(moves: seq<Move>, w: nat) {
    forall m | m in moves :: m.Act? && m.who == w
  }

  lemma {:induction false} RunCons(s: Cache, mints: seq<Material>, m: Move, rest: seq<Move>, rules: Rules)
    requires |mints| == |s.workers| && Allowed(s, m, rules)
    ensures Run(s, mints, [m] + rest) == Run(Step(s, mints, m), mints, rest)
    ensures Scheduled(Step(s, mints, m), mints, rest, rules) ==> Scheduled(s, mints, [m] + rest, rules)
    decreases |rest|
  {
    hide Step, Allowed;
    var all := [m] + rest;
    if rest == [] {
      assert all[..0] == [] && Last(all) == m;
      assert Run(s, mints, all[..0]) == s;
    } else {
      RunCons(s, mints, m, rest[..|rest| - 1], rules);
      assert all[..|all| - 1] == [m] + rest[..|rest| - 1] && Last(all) == Last(rest);
    }
  }

  function Rank(pc: Pc): nat {
    match pc
    case LookEntry => 6
    case LookMarker => 5
    case LookAge => 4
    case RemoveStale => 3
    case Claim => 2
    case Fill => 1
    case _ => 0
  }

  /** A publisher that can get through by itself from here, and hits nothing. */
  predicate Clear(s: Cache, w: nat)
    requires w < |s.workers|
  {
    && !s.finished
    && match s.workers[w].pc
       case LookEntry => s.entry.Dir? ==> s.now - s.entry.mtime >= STALE_CLAIM && !HeldLive(s)
       case LookMarker | LookAge => s.entry.Dir? && s.now - s.entry.mtime >= STALE_CLAIM && !HeldLive(s)
       case RemoveStale => !HeldLive(s)
       case Claim => s.entry.Absent?
       case Fill => s.entry.Dir?
       case _ => false
  }

  /** What the worker does next: its next file while it copies. */
  ghost function NextMove(s: Cache, w: nat): (m: Move)
    requires w < |s.workers|
    ensures m.Act? && m.who == w
  {
    var left := s.workers[w].dir.Keys - s.workers[w].copied;
    if s.workers[w].pc == Fill && left != {} then
      var name :| name in left;
      Act(w, name, false)
    else Act(w, "", false)
  }

  /** Nearer to the end: a later call, or one file fewer to copy. */
  predicate Nearer(w': Worker, w: Worker) {
    || Rank(w'.pc) < Rank(w.pc)
    || (w'.pc == Fill == w.pc && |w'.dir.Keys - w'.copied| < |w.dir.Keys - w.copied|)
  }

  /** Late publishers and recoveries are ruled out, and removals that hit; nothing else is. */
  function OnTimeSparing(grace: nat): Rules {
    Rules(Some(grace), false, false, true)
  }

  lemma ClearStep(s: Cache, mints: seq<Material>, grace: nat, w: nat)
    requires |mints| == |s.workers| && w < |mints| && Clear(s, w)
    ensures
      var s' := Step(s, mints, NextMove(s, w));
      && Allowed(s, NextMove(s, w), OnTimeSparing(grace))
      && (Clear(s', w) || s'.workers[w].pc == Published)
      && Nearer(s'.workers[w], s.workers[w])
  {
    if s.workers[w].pc == Fill {
      FillStep(s, mints, w);
    }
  }

  lemma NextFile(s: Cache, w: nat) returns (name: string)
    requires w < |s.workers| && s.workers[w].pc == Fill
    ensures NextMove(s, w) == Act(w, name, false)
    ensures
      var v := s.workers[w];
      !(v.dir.Keys <= v.copied) ==> name in v.dir && name !in v.copied
  {
    var left := s.workers[w].dir.Keys - s.workers[w].copied;
    name := NextMove(s, w).name;
    if left == {} {
      forall n | n in s.workers[w].dir.Keys ensures n in s.workers[w].copied {
        assert n !in left;
      }
    } else {
      assert name in left;
    }
  }

  lemma FillStep(s: Cache, mints: seq<Material>, w: nat)
    requires |mints| == |s.workers| && w < |mints| && Clear(s, w) && s.workers[w].pc == Fill
    ensures
      var s' := Step(s, mints, NextMove(s, w));
      && (Clear(s', w) || s'.workers[w].pc == Published)
      && Nearer(s'.workers[w], s.workers[w])
  {
    var name := NextFile(s, w);
    hide NextMove;
    var v := s.workers[w];
    if v.dir.Keys <= v.copied {
      assert Call(s, v, w, mints[w], name, false).2 == v.(pc := Published);
    } else {
      OneFewer(v, name);
      var v' := v.(copied := v.copied + {name});
      hide Nearer;
      assert Call(s, v, w, mints[w], name, false).2 == v';
    }
  }

  lemma OneFewer(w: Worker, name: string)
    requires w.pc == Fill && name in w.dir && name !in w.copied
    ensures Nearer(w.(copied := w.copied + {name}), w)
  {
    var left := w.dir.Keys - w.copied;
    assert left - {name} == w.dir.Keys - (w.copied + {name});
    FewerLeft(left, name);
  }

  lemma FewerLeft(left: set<string>, name: string)
    requires name in left
    ensures |left - {name}| < |left|
  {
  }

  lemma {:induction false} FillsAlone(s: Cache, mints: seq<Material>, grace: nat, w: nat) returns (moves: seq<Move>)
    requires |mints| == |s.workers| && w < |mints| && Clear(s, w)
    ensures OnlyBy(moves, w) && Scheduled(s, mints, moves, OnTimeSparing(grace))
    ensures Run(s, mints, moves).workers[w].pc == Published
    decreases Rank(s.workers[w].pc), |s.workers[w].dir.Keys - s.workers[w].copied|
  {
    hide Step, Allowed, Clear, NextMove;
    var m := NextMove(s, w);
    var s' := Step(s, mints, m);
    ClearStep(s, mints, grace, w);
    var rest: seq<Move> := [];
    if s'.workers[w].pc != Published {
      rest := FillsAlone(s', mints, grace, w);
    }
    RunCons(s, mints, m, rest, OnTimeSparing(grace));
    moves := [m] + rest;
  }

  /** A publisher that can only give way from here. */
  predicate Blocked(s: Cache, w: nat)
    requires w < |s.workers|
  {
    && s.entry.Dir? && (s.finished || s.now - s.entry.mtime < STALE_CLAIM)
    && match s.workers[w].pc
       case LookEntry | LookMarker | Claim | Kept => true
       case LookAge => s.now - s.entry.mtime < STALE_CLAIM
       case _ => false
  }

  lemma {:induction false} GivesWay(s: Cache, mints: seq<Material>, w: nat, moves: seq<Move>)
    requires |mints| == |s.workers| && w < |mints| && Blocked(s, w) && OnlyBy(moves, w)
    ensures Blocked(Run(s, mints, moves), w) && Run(s, mints, moves).entry == s.entry
    decreases |moves|
  {
    if moves != [] {
      var init := moves[..|moves| - 1];
      assert forall m | m in init :: m in moves;
      GivesWay(s, mints, w, init);
      assert Last(moves) in moves;
      hide Run;
      assert Run(s, mints, moves) == Step(Run(s, mints, init), mints, Last(moves)) by {
        RunSnoc(s, mints, moves);
      }
    }
  }

  lemma RunSnoc(s: Cache, mints: seq<Material>, moves: seq<Move>)
    requires |mints| == |s.workers| && moves != []
    ensures Run(s, mints, moves) == Step(Run(s, mints, moves[..|moves| - 1]), mints, Last(moves))
  {
  }

  /** A claim that is still being filled is not stale. */
  predicate FillsOnTime(s: Cache, grace: nat) {
    && grace < STALE_CLAIM
    && forall i | 0 <= i < |s.workers| && s.workers[i].pc == Fill ::
         s.now - s.workers[i].claimedAt + grace < STALE_CLAIM
  }

  lemma {:induction false} RunsOnTime(mints: seq<Material>, now: nat, moves: seq<Move>, rules: Rules)
    requires Timely(rules) && Scheduled(Start(mints, now), mints, moves, rules)
    ensures FillsOnTime(Run(Start(mints, now), mints, moves), rules.grace.value)
    decreases |moves|
  {
    if moves != [] {
      var init := moves[..|moves| - 1];
      RunsOnTime(mints, now, init, rules);
      OnTimeStep(Run(Start(mints, now), mints, init), mints, Last(moves), rules);
      hide Step, Allowed, FillsOnTime;
    }
  }

  lemma OnTimeStep(s: Cache, mints: seq<Material>, m: Move, rules: Rules)
    requires |mints| == |s.workers| && Timely(rules) && Allowed(s, m, rules) && FillsOnTime(s, rules.grace.value)
    ensures FillsOnTime(Step(s, mints, m), rules.grace.value)
  {
  }

  /**
   * Where publishers are on time, the next one to come along can fill an entry by itself, without hitting
   * anything, exactly when no marker is there and the entry is absent or its claim is older than the bound. So
   * whatever a reader refuses is absent, freshly claimed, or about to be replaced.
   */
  lemma PublishesAloneIff(s: Cache, mints: seq<Material>, now: nat, moves: seq<Move>, grace: nat, w: nat)
    requires SameNames(mints) && grace < STALE_CLAIM
    requires Scheduled(Start(mints, now), mints, moves, OnTimeSparing(grace))
    requires s == Run(Start(mints, now), mints, moves) && w < |mints| && s.workers[w].pc == LookEntry
    ensures (exists solo | OnlyBy(solo, w) && Scheduled(s, mints, solo, OnTimeSparing(grace)) ::
               Run(s, mints, solo).workers[w].pc == Published)
       <==> !s.finished && (s.entry.Absent? || s.now - s.entry.mtime >= 60_000)
  {
    ScheduledLooser(Start(mints, now), mints, moves, OnTimeSparing(grace), SPARING);
    RunKeeps(s, mints, now, moves);
    RunsOnTime(mints, now, moves, OnTimeSparing(grace));
    hide Run, Scheduled;
    if !s.finished && (s.entry.Absent? || s.now - s.entry.mtime >= STALE_CLAIM) {
      assert !HeldLive(s);
      var solo := FillsAlone(s, mints, grace, w);
    } else {
      forall solo | OnlyBy(solo, w) ensures Run(s, mints, solo).workers[w].pc != Published {
        GivesWay(s, mints, w, solo);
      }
    }
  }

  // ---------------------------------------------------------------------------
  // Main result: what is published is used.
  // ---------------------------------------------------------------------------

  /** Reading the marked entry, without a throw. */
  predicate Reading(s: Cache, entry: Slot, w: nat)
    requires w < |s.workers|
  {
    && s.finished && s.entry == entry && entry.Dir?
    && match s.workers[w].pc
       case CheckMarker => s.workers[w].dir == map[]
       case CopyOut => Part(s.workers[w].dir, entry.files)
       case Hit => s.workers[w].dir == entry.files
       case _ => false
  }

  lemma ReadingStep(s: Cache, mints: seq<Material>, entry: Slot, w: nat, m: Move)
    requires |mints| == |s.workers| && w < |mints| && Reading(s, entry, w) && m.Act? && m.who == w
    ensures Reading(Step(s, mints, m), entry, w)
  {
    if s.workers[w].pc == CopyOut && entry.files.Keys <= s.workers[w].dir.Keys {
      WholeIs(s.workers[w].dir, entry.files);
    }
  }

  lemma {:induction false} KeepsReading(s: Cache, mints: seq<Material>, entry: Slot, w: nat, moves: seq<Move>)
    requires |mints| == |s.workers| && w < |mints| && Reading(s, entry, w) && OnlyBy(moves, w)
    ensures Reading(Run(s, mints, moves), entry, w)
    decreases |moves|
  {
    hide Step, Reading;
    if moves != [] {
      var init := moves[..|moves| - 1];
      assert forall m | m in init :: m in moves;
      KeepsReading(s, mints, entry, w, init);
      assert Last(moves) in moves;
      ReadingStep(Run(s, mints, init), mints, entry, w, Last(moves));
    }
  }

  /** Without a throw a reader gets through, a file at a time. */
  lemma {:induction false} ReadsThrough(s: Cache, mints: seq<Material>, entry: Slot, w: nat) returns (moves: seq<Move>)
    requires |mints| == |s.workers| && w < |mints| && Reading(s, entry, w)
    ensures OnlyBy(moves, w) && Run(s, mints, moves).workers[w].pc == Hit
    decreases
      if s.workers[w].pc == CheckMarker then 1 else 0,
      if s.workers[w].pc == Hit then {} else entry.files.Keys - s.workers[w].dir.Keys,
      if s.workers[w].pc == Hit then 0 else 1
  {
    hide Run;
    var v := s.workers[w];
    if v.pc == Hit {
      moves := [];
      NothingRuns(s, mints);
    } else {
      var name := "";
      if v.pc == CopyOut {
        if n :| n in entry.files && n !in v.dir {
          name := n;
        }
      }
      var m := Act(w, name, false);
      var s' := Step(s, mints, m);
      ReadingStep(s, mints, entry, w, m);
      if v.pc == CopyOut && s'.workers[w].pc == CopyOut {
        assert name in entry.files.Keys - v.dir.Keys && name !in entry.files.Keys - s'.workers[w].dir.Keys;
      }
      var rest := ReadsThrough(s', mints, entry, w);
      RunCons(s, mints, m, rest, SPARING);
      moves := [m] + rest;
    }
  }

  lemma NothingRuns(s: Cache, mints: seq<Material>)
    requires |mints| == |s.workers|
    ensures Run(s, mints, []) == s
  {
  }

  /** A call that found no marker: it will not use the entry. */
  predicate Minting(s: Cache, w: nat)
    requires w < |s.workers|
  {
    s.workers[w].pc != CopyOut && s.workers[w].pc != Hit && (s.workers[w].pc == CheckMarker ==> !s.finished)
  }

  lemma {:induction false} KeepsMinting(s: Cache, mints: seq<Material>, w: nat, moves: seq<Move>)
    requires |mints| == |s.workers| && w < |mints| && Minting(s, w) && OnlyBy(moves, w)
    ensures Minting(Run(s, mints, moves), w)
    decreases |moves|
  {
    if moves != [] {
      var init := moves[..|moves| - 1];
      assert forall m | m in init :: m in moves;
      KeepsMinting(s, mints, w, init);
      assert Last(moves) in moves;
    }
  }

  /**
   * A call by itself is a hit exactly when the marker is there, and then it mints nothing: as long as none of its
   * own calls throws it is reading, and what it ends with is the entry.
   */
  lemma HitsAloneIff(s: Cache, mints: seq<Material>, now: nat, moves: seq<Move>, w: nat)
    requires Reaches(s, mints, now, moves) && w < |mints| && s.workers[w].pc == CheckMarker
    ensures (exists solo | OnlyBy(solo, w) :: Run(s, mints, solo).workers[w].pc == Hit) <==> s.finished
    ensures s.finished ==> forall solo | OnlyBy(solo, w) :: Reading(Run(s, mints, solo), s.entry, w)
  {
    RunKeeps(s, mints, now, moves);
    assert WorkerOk(s, s.workers[w], w, mints[w]);
    hide Run, Inv, Reaches;
    if s.finished {
      var solo := ReadsThrough(s, mints, s.entry, w);
      forall solo | OnlyBy(solo, w) ensures Reading(Run(s, mints, solo), s.entry, w) {
        KeepsReading(s, mints, s.entry, w, solo);
      }
    } else {
      forall solo | OnlyBy(solo, w) ensures Run(s, mints, solo).workers[w].pc != Hit {
        KeepsMinting(s, mints, w, solo);
      }
    }
  }

  // ---------------------------------------------------------------------------
  // The generation in the key.
  // ---------------------------------------------------------------------------

  const GENERATION_MS: nat := 7 * 24 * 60 * 60 * 1000

  /** `digest` stands for the hash of the script and the arguments. */
  datatype Key = Key(digest: string, generation: nat)

  function EntryKey(digest: string, nowMs: nat): Key {
    Key(digest, nowMs / GENERATION_MS)
  }

  /** Two calls share an entry if and only if they are the same request within the same week. */
  lemma KeysMeetWithinOneWeek(digest: string, nowMs: nat, digest': string, nowMs': nat)
    ensures EntryKey(digest, nowMs) == EntryKey(digest', nowMs') <==>
            digest == digest' && exists week: nat :: week * 604_800_000 <= nowMs < (week + 1) * 604_800_000
                                                  && week * 604_800_000 <= nowMs' < (week + 1) * 604_800_000
  {
    var week, week' := nowMs / GENERATION_MS, nowMs' / GENERATION_MS;
    assert week * GENERATION_MS <= nowMs < (week + 1) * GENERATION_MS;
    assert week' * GENERATION_MS <= nowMs' < (week' + 1) * GENERATION_MS;
  }
}
