/**
 * `apps/server/src/ingest.ts`: what a channel's store says of the messages Slack holds, under any
 * interleaving of deliveries, handlers that wait for a name, and revisions.
 */
module IngestMirror {
  import opened Base
  import opened Ingest

  /**
   * A message's handler suspends on the author's name between `Deliver` and `Resume`; a revision's runs at
   * once. `writes`: the store's write works.
   */
  datatype Move =
    | Deliver(m: Message)
    | Resume(k: nat, displayName: Option<string>, at: int, writes: bool)
    | Revise(r: Revision, writes: bool)

  datatype Channel = Channel(store: Tables, waiting: seq<Message>)

  const EMPTY := Channel(Tables(map[], map[]), [])

  function Step(c: Channel, move: Move): Channel {
    match move
    case Deliver(m) => c.(waiting := c.waiting + [m])
    case Resume(k, displayName, at, writes) =>
      if k >= |c.waiting| then c
      else Channel(if writes then Filed(c.store, c.waiting[k], displayName, at) else c.store,
                   c.waiting[..k] + c.waiting[k + 1..])
    case Revise(r, writes) => if writes then c.(store := Revised(c.store, r)) else c
  }

  function Run(moves: seq<Move>): Channel {
    if moves == [] then EMPTY else Step(Run(moves[..|moves| - 1]), Last(moves))
  }

  /** What Slack holds of one message: `Elsewhere` was revised before it was ever delivered here. */
  datatype Fate = Unseen | Elsewhere | Live(m: Message, text: string) | Gone(m: Message)

  function AfterRevision(fate: Fate, r: Revision): Fate {
    match fate
    case Live(m, _) => if r.Edited? then Live(m, r.text) else Gone(m)
    case Gone(_) => fate
    case _ => Elsewhere
  }

  function FateOf(moves: seq<Move>, ts: string): Fate {
    if moves == [] then Unseen
    else
      var before := FateOf(moves[..|moves| - 1], ts);
      match Last(moves)
      case Deliver(m) => if m.ts == ts && (before.Unseen? || before.Elsewhere?) then Live(m, m.text) else before
      case Resume(_, _, _, _) => before
      case Revise(r, _) => if r.ts != ts then before else AfterRevision(before, r)
  }

  predicate Waits(waiting: seq<Message>, ts: string) {
    exists m | m in waiting :: m.ts == ts
  }

  /**
   * One event in order: no write fails, a message comes before its revisions, and a redelivered one is the
   * same message and has not been deleted.
   */
  predicate InOrder(moves: seq<Move>, move: Move) {
    match move
    case Deliver(m) => FateOf(moves, m.ts) == Unseen || (FateOf(moves, m.ts).Live? && FateOf(moves, m.ts).m == m)
    case Resume(_, _, _, writes) => writes
    case Revise(_, writes) => writes
  }

  predicate Orderly(moves: seq<Move>) {
    moves == [] || (Orderly(moves[..|moves| - 1]) && InOrder(moves[..|moves| - 1], Last(moves)))
  }

  /** Nobody was still filing the message when a revision of it was handled. */
  predicate Unhurried(moves: seq<Move>, ts: string) {
    moves == [] ||
    var before := moves[..|moves| - 1];
    && Unhurried(before, ts)
    && (Last(moves).Revise? && Last(moves).r.ts == ts ==> !Waits(Run(before).waiting, ts))
  }

  /** In the right table and in no other. */
  predicate Stored(t: Tables, m: Message) {
    var table, other := if m.fromApp then t.replies else t.messages, if m.fromApp then t.messages else t.replies;
    m.ts in table && m.ts !in other && table[m.ts].threadTs == m.threadTs && table[m.ts].userId == m.userId
  }

  function StoredText(t: Tables, m: Message): string
    requires Stored(t, m)
  {
    if m.fromApp then t.replies[m.ts].text else t.messages[m.ts].text
  }

  predicate HoldsNone(t: Tables, ts: string) {
    ts !in t.messages && ts !in t.replies
  }

  /** The store says of a message what Slack now says. */
  predicate Mirrors(t: Tables, fate: Fate, ts: string) {
    match fate
    case Live(m, text) => m.ts == ts && Stored(t, m) && StoredText(t, m) == text
    case _ => HoldsNone(t, ts)
  }

  /**
   * Whether a revision can be handled now: a deletion finds no copy still being filed; an edit finds the
   * row, or says what was delivered; and an edit of what was deleted finds nothing of it.
   */
  predicate Caught(c: Channel, fate: Fate, r: Revision) {
    if r.Deleted? then !Waits(c.waiting, r.ts)
    else
      match fate
      case Live(m, _) => !HoldsNone(c.store, r.ts) || r.text == m.text
      case _ => HoldsNone(c.store, r.ts) && !Waits(c.waiting, r.ts)
  }

  /** The last revision of the message, if there was one, could be handled when it was. */
  predicate CaughtLast(moves: seq<Move>, ts: string) {
    moves == [] ||
    var before := moves[..|moves| - 1];
    match Last(moves)
    case Revise(r, _) => if r.ts == ts then Caught(Run(before), FateOf(before, ts), r) else CaughtLast(before, ts)
    case _ => CaughtLast(before, ts)
  }

  // ---------------------------------------------------------------------------
  // The invariant of one message.
  // ---------------------------------------------------------------------------

  /** `caught`: whether the last revision of it was. */
  predicate Tracked(c: Channel, fate: Fate, ts: string, caught: bool) {
    && (forall m | m in c.waiting && m.ts == ts :: (fate.Live? || fate.Gone?) && fate.m == m)
    && match fate
       case Live(m, text) =>
         && m.ts == ts
         && if HoldsNone(c.store, ts) then Waits(c.waiting, ts) && (caught <==> text == m.text)
            else Stored(c.store, m) && (caught <==> text == StoredText(c.store, m))
       case Gone(m) =>
         && m.ts == ts && (HoldsNone(c.store, ts) || Stored(c.store, m))
         && (caught <==> HoldsNone(c.store, ts) && !Waits(c.waiting, ts))
       case _ => HoldsNone(c.store, ts) && caught
  }

  lemma FiledElsewhere(t: Tables, m: Message, displayName: Option<string>, at: int, ts: string)
    requires ts != m.ts
    ensures
      var t' := Filed(t, m, displayName, at);
      && (ts in t'.messages <==> ts in t.messages) && (ts in t'.replies <==> ts in t.replies)
      && (ts in t.messages ==> t'.messages[ts] == t.messages[ts])
      && (ts in t.replies ==> t'.replies[ts] == t.replies[ts])
  {
  }

  lemma RevisedElsewhere(t: Tables, r: Revision, ts: string)
    requires ts != r.ts
    ensures
      var t' := Revised(t, r);
      && (ts in t'.messages <==> ts in t.messages) && (ts in t'.replies <==> ts in t.replies)
      && (ts in t.messages ==> t'.messages[ts] == t.messages[ts])
      && (ts in t.replies ==> t'.replies[ts] == t.replies[ts])
  {
  }

  lemma WaitsWithout(waiting: seq<Message>, k: nat, ts: string)
    requires k < |waiting|
    ensures forall m | m in waiting[..k] + waiting[k + 1..] :: m in waiting
    ensures waiting[k].ts != ts && Waits(waiting, ts) ==> Waits(waiting[..k] + waiting[k + 1..], ts)
  {
    var rest := waiting[..k] + waiting[k + 1..];
    forall m | m in waiting && m != waiting[k] ensures m in rest {
      var j :| 0 <= j < |waiting| && waiting[j] == m;
      assert rest[if j < k then j else j - 1] == m;
    }
    if waiting[k].ts != ts && Waits(waiting, ts) {
      var m :| m in waiting && m.ts == ts;
      assert m in rest;
    }
  }

  lemma WaitsMore(waiting: seq<Message>, m: Message, ts: string)
    ensures Waits(waiting + [m], ts) <==> Waits(waiting, ts) || m.ts == ts
    ensures forall x | x in waiting + [m] :: x in waiting || x == m
  {
    assert m in waiting + [m];
    if Waits(waiting, ts) {
      var x :| x in waiting && x.ts == ts;
      assert x in waiting + [m];
    }
  }

  lemma ResumeKeeps(
      c: Channel, fate: Fate, ts: string, caught: bool, k: nat, displayName: Option<string>, at: int)
    requires Tracked(c, fate, ts, caught)
    ensures Tracked(Step(c, Resume(k, displayName, at, true)), fate, ts, caught)
  {
    if k < |c.waiting| {
      WaitsWithout(c.waiting, k, ts);
      assert c.waiting[k] in c.waiting;
      if c.waiting[k].ts != ts {
        FiledElsewhere(c.store, c.waiting[k], displayName, at, ts);
      }
    }
  }

  lemma ReviseKeeps(c: Channel, fate: Fate, ts: string, caught: bool, r: Revision)
    requires Tracked(c, fate, ts, caught)
    ensures
      var c' := Step(c, Revise(r, true));
      if r.ts == ts then Tracked(c', AfterRevision(fate, r), ts, Caught(c, fate, r)) else Tracked(c', fate, ts, caught)
  {
    if r.ts != ts {
      RevisedElsewhere(c.store, r, ts);
    }
  }

  lemma {:induction false} RunTracks(moves: seq<Move>, ts: string)
    requires Orderly(moves)
    ensures Tracked(Run(moves), FateOf(moves, ts), ts, CaughtLast(moves, ts))
  {
    if moves != [] {
      var before, move := moves[..|moves| - 1], Last(moves);
      var c, caught := Run(before), CaughtLast(before, ts);
      RunTracks(before, ts);
      match move
      case Deliver(m) =>
        WaitsMore(c.waiting, m, ts);
      case Resume(k, displayName, at, _) => ResumeKeeps(c, FateOf(before, ts), ts, caught, k, displayName, at);
      case Revise(r, _) => ReviseKeeps(c, FateOf(before, ts), ts, caught, r);
    }
  }

  // ---------------------------------------------------------------------------
  // Main results.
  // ---------------------------------------------------------------------------

  /**
   * When no handler is waiting, the store says of a message what Slack says, after any orderly run, exactly
   * when its last revision could be handled at the moment it was.
   */
  lemma StoreMirrorsIff(moves: seq<Move>, ts: string)
    requires Orderly(moves) && Run(moves).waiting == []
    ensures Mirrors(Run(moves).store, FateOf(moves, ts), ts) <==> CaughtLast(moves, ts)
  {
    RunTracks(moves, ts);
  }

  lemma {:induction false} UnhurriedIsCaught(moves: seq<Move>, ts: string)
    requires Orderly(moves) && Unhurried(moves, ts)
    ensures CaughtLast(moves, ts)
  {
    if moves != [] {
      UnhurriedIsCaught(moves[..|moves| - 1], ts);
      RunTracks(moves[..|moves| - 1], ts);
    }
  }

  /**
   * The store mirrors the channel: after every orderly run in which no revision of a message overtook its
   * filing, it holds the message exactly if it was delivered and not deleted since, with its latest text.
   */
  lemma StoreMirrorsSlack(moves: seq<Move>, ts: string)
    requires Orderly(moves) && Unhurried(moves, ts) && Run(moves).waiting == []
    ensures Mirrors(Run(moves).store, FateOf(moves, ts), ts)
  {
    UnhurriedIsCaught(moves, ts);
    StoreMirrorsIff(moves, ts);
  }

  /** In no run at all, orderly or not, does a revision add a row; an edit keeps the rows there are. */
  lemma RevisionAddsNoRow(c: Channel, r: Revision, writes: bool)
    ensures
      var t, t' := c.store, Step(c, Revise(r, writes)).store;
      && t'.messages.Keys <= t.messages.Keys && t'.replies.Keys <= t.replies.Keys
      && (r.Edited? ==> t'.messages.Keys == t.messages.Keys && t'.replies.Keys == t.replies.Keys)
  {
  }

  /** Every row was delivered as a message. */
  lemma {:induction false} EveryRowWasDelivered(moves: seq<Move>, ts: string)
    ensures !HoldsNone(Run(moves).store, ts) || Waits(Run(moves).waiting, ts) ==>
              exists k | 0 <= k < |moves| :: moves[k].Deliver? && moves[k].m.ts == ts
  {
    if moves != [] {
      var before, move := moves[..|moves| - 1], Last(moves);
      var c := Run(before);
      EveryRowWasDelivered(before, ts);
      assert forall k | 0 <= k < |before| :: before[k] == moves[k];
      match move
      case Deliver(m) =>
        if m.ts == ts {
          assert moves[|moves| - 1].Deliver?;
        } else {
          assert Waits(c.waiting + [m], ts) ==> Waits(c.waiting, ts);
        }
      case Resume(k, displayName, at, writes) =>
        if k < |c.waiting| {
          WaitsWithout(c.waiting, k, ts);
          if c.waiting[k].ts != ts {
            FiledElsewhere(c.store, c.waiting[k], displayName, at, ts);
          } else {
            assert c.waiting[k] in c.waiting;
          }
        }
      case Revise(r, writes) =>
        if r.ts != ts { RevisedElsewhere(c.store, r, ts); }
    }
  }

  /** Who has filed a row, and when: some handler's write gave it its name and its time. */
  predicate WasFiled(moves: seq<Move>, row: Row) {
    exists k | 0 <= k < |moves| ::
      && moves[k].Resume? && moves[k].writes
      && moves[k].displayName == row.displayName && moves[k].at == row.at
  }

  /** Every row carries the author's name and the time as its own handler had them, edits notwithstanding. */
  lemma {:induction false} EveryRowIsASnapshot(moves: seq<Move>, ts: string)
    ensures
      var t := Run(moves).store;
      && (ts in t.messages ==> WasFiled(moves, t.messages[ts]))
      && (ts in t.replies ==> WasFiled(moves, t.replies[ts]))
  {
    if moves != [] {
      var before, move := moves[..|moves| - 1], Last(moves);
      EveryRowIsASnapshot(before, ts);
      assert forall k | 0 <= k < |before| :: before[k] == moves[k];
      forall row: Row, row': Row | WasFiled(before, row) && row'.displayName == row.displayName && row'.at == row.at
        ensures WasFiled(moves, row')
      {
        var k :| 0 <= k < |before| && before[k].Resume? && before[k].writes
                 && before[k].displayName == row.displayName && before[k].at == row.at;
        assert moves[k] == before[k];
      }
      if move.Resume? && move.writes {
        assert moves[|moves| - 1] == move;
      }
    }
  }

  // ---------------------------------------------------------------------------
  // Revisions that overtake the filing.
  // ---------------------------------------------------------------------------

  /** A message is revised while its handler waits, and then filed. */
  function Overtaken(m: Message, r: Revision): (moves: seq<Move>)
    ensures |moves| == 3
  {
    [Deliver(m), Revise(r, true), Resume(0, None, 0, true)]
  }

  lemma OvertakenRun(m: Message, r: Revision)
    requires r.ts == m.ts
    ensures
      var moves := Overtaken(m, r);
      && Orderly(moves) && Run(moves).waiting == [] && FateOf(moves, m.ts) == AfterRevision(Live(m, m.text), r)
      && (CaughtLast(moves, m.ts) <==> r.Edited? && r.text == m.text)
  {
    var moves := Overtaken(m, r);
    var two, one := moves[..2], moves[..2][..1];
    assert two == [Deliver(m), Revise(r, true)] && one == [Deliver(m)] && one[..0] == [];
    assert Run(one) == Channel(EMPTY.store, [m]) && FateOf(one, m.ts) == Live(m, m.text);
    assert m in Run(one).waiting;
    assert Orderly(one) by { assert FateOf(one[..0], m.ts) == Unseen && Orderly(one[..0]); }
    assert Orderly(two);
    assert Run(two) == Channel(EMPTY.store, [m]);
  }

  /** So a deletion is lost, and an edit unless it says what was delivered. */
  lemma OvertakenIsLost(m: Message, r: Revision)
    requires r.ts == m.ts
    ensures
      var moves := Overtaken(m, r);
      && Orderly(moves) && Run(moves).waiting == []
      && (Mirrors(Run(moves).store, FateOf(moves, m.ts), m.ts) <==> r.Edited? && r.text == m.text)
  {
    OvertakenRun(m, r);
    StoreMirrorsIff(Overtaken(m, r), m.ts);
    hide *;
  }

  /** The message stays in the store although Slack has deleted it. */
  lemma DeletedWhileWaitingStays(m: Message)
    ensures
      var moves := Overtaken(m, Deleted(m.ts));
      && Orderly(moves) && Run(moves).waiting == []
      && FateOf(moves, m.ts) == Gone(m) && !HoldsNone(Run(moves).store, m.ts)
  {
    OvertakenRun(m, Deleted(m.ts));
    OvertakenIsLost(m, Deleted(m.ts));
    hide Run, FateOf, Orderly, CaughtLast, Overtaken;
  }

  /** A later edit, handled once the message is filed, makes up for one that was lost. */
  lemma LaterEditCatchesUp(moves: seq<Move>, ts: string, text: string)
    requires Orderly(moves) && Run(moves).waiting == [] && FateOf(moves, ts).Live?
    ensures
      var moves' := moves + [Revise(Edited(ts, text), true)];
      && Orderly(moves') && Run(moves').waiting == []
      && FateOf(moves', ts).Live? && Mirrors(Run(moves').store, FateOf(moves', ts), ts)
  {
    var moves' := moves + [Revise(Edited(ts, text), true)];
    assert moves'[..|moves|] == moves;
    RunTracks(moves, ts);
    assert CaughtLast(moves', ts);
    StoreMirrorsIff(moves', ts);
  }
}
