/** `apps/server/src/rebuild-cli.ts`: re-embedding a channel's stored summaries, a bounded run at a time. */
module Rebuild {
  import opened Base

  type Vector = seq<real>

  datatype Summary = Summary(thread: string, text: string)

  /** What the file is stamped with: every vector in it is under one model and of one width. */
  datatype Held = Held(model: string, dims: nat)

  /** One `putEmbedding` that was accepted. */
  datatype Put = Put(thread: string, vector: Vector, model: string)

  /** `summaries` are oldest first; `skills` are the skills that have a vector. */
  datatype State = State(summaries: seq<Summary>, vectors: map<string, Vector>, skills: set<string>, held: Option<Held>)

  // ---------------------------------------------------------------------------
  // The store, as far as this command uses it.
  // ---------------------------------------------------------------------------

  function Unembedded(summaries: seq<Summary>, vectors: map<string, Vector>): seq<Summary> {
    if summaries == [] then []
    else
      Unembedded(summaries[..|summaries| - 1], vectors)
      + (if Last(summaries).thread in vectors then [] else [Last(summaries)])
  }

  function Pending(st: State): seq<Summary> {
    Unembedded(st.summaries, st.vectors)
  }

  predicate DistinctThreads(summaries: seq<Summary>) {
    forall i, j | 0 <= i < j < |summaries| :: summaries[i].thread != summaries[j].thread
  }

  predicate Accepts(st: State, p: Put) {
    st.held == None || st.held == Some(Held(p.model, |p.vector|))
  }

  function Stored(st: State, p: Put): State {
    st.(vectors := st.vectors[p.thread := p.vector], held := Some(Held(p.model, |p.vector|)))
  }

  function AllStored(st: State, puts: seq<Put>): State {
    if puts == [] then st else Stored(AllStored(st, puts[..|puts| - 1]), Last(puts))
  }

  function Dropped(st: State): State {
    st.(vectors := map[], skills := {}, held := None)
  }

  predicate MustDrop(st: State, model: string) {
    st.held.Some? && st.held.value.model != model
  }

  /** The state the loop starts from. */
  function Begun(st: State, model: string): State {
    if MustDrop(st, model) then Dropped(st) else st
  }

  function Threads(summaries: seq<Summary>): (threads: seq<string>)
    ensures |threads| == |summaries|
  {
    seq(|summaries|, i requires 0 <= i < |summaries| => summaries[i].thread)
  }

  function PutThreads(puts: seq<Put>): (threads: seq<string>)
    ensures |threads| == |puts|
  {
    seq(|puts|, i requires 0 <= i < |puts| => puts[i].thread)
  }

  /** `drops` and `puts` are histories of what was done to the file. */
  class Store {
    const summaries: seq<Summary>
    var vectors: map<string, Vector>
    var skills: set<string>
    var held: Option<Held>
    var drops: nat
    var puts: seq<Put>

    function Now(): State
      reads this
    {
      State(summaries, vectors, skills, held)
    }

    constructor (st: State)
      ensures Now() == st && drops == 0 && puts == []
    {
      summaries, vectors, skills, held := st.summaries, st.vectors, st.skills, st.held;
      drops, puts := 0, [];
    }

    method SummariesNeedingEmbedding(wanted: nat) returns (batch: seq<Summary>)
      ensures batch == if wanted <= |Pending(Now())| then Pending(Now())[..wanted] else Pending(Now())
    {
      var pending := Unembedded(summaries, vectors);
      batch := if wanted <= |pending| then pending[..wanted] else pending;
    }

    method DropEmbeddings()
      modifies this
      ensures Now() == Dropped(old(Now())) && drops == old(drops) + 1 && puts == old(puts)
    {
      vectors, skills, held := map[], {}, None;
      drops := drops + 1;
    }

    /** A vector under another model, or of another width, is refused. */
    method PutEmbedding(p: Put) returns (ok: bool)
      modifies this
      ensures ok <==> Accepts(old(Now()), p)
      ensures ok ==> Now() == Stored(old(Now()), p) && puts == old(puts) + [p]
      ensures !ok ==> Now() == old(Now()) && puts == old(puts)
      ensures drops == old(drops)
    {
      ok := held == None || held == Some(Held(p.model, |p.vector|));
      if ok {
        vectors := vectors[p.thread := p.vector];
        held := Some(Held(p.model, |p.vector|));
        puts := puts + [p];
      }
    }
  }

  // ---------------------------------------------------------------------------
  // The command.
  // ---------------------------------------------------------------------------

  /** The store writes from `since` on are all under one model. */
  predicate Under(puts: seq<Put>, since: nat, model: string) {
    forall k | since <= k < |puts| :: puts[k].model == model
  }

  /** A model the provider can serve when asked for `model`: one it reports, or `model` when it reports none. */
  ghost predicate Serves(provider: Provider, model: string, served: string) {
    exists n, texts :: provider(n, texts).Vectors? && provider(n, texts).model.UnwrapOr(model) == served
  }

  /** The provider serves that one only. */
  ghost predicate ServesAs(provider: Provider, model: string, served: string) {
    forall m | Serves(provider, model, m) :: m == served
  }

  /** The store writes from `since` on are each under a model the provider served. */
  ghost predicate AsServed(puts: seq<Put>, since: nat, provider: Provider, model: string) {
    forall k | since <= k < |puts| :: Serves(provider, model, puts[k].model)
  }

  /** Asked for this text, among others, the provider has answered with this vector, in its place. */
  ghost predicate AnswersText(provider: Provider, text: string, vector: Vector) {
    exists n, texts, i: nat ::
      && provider(n, texts).Vectors? && i < |texts| && i < |provider(n, texts).vectors|
      && texts[i] == text && provider(n, texts).vectors[i] == vector
  }

  /** Each store write from `since` on is an answer to the text of its own summary. */
  ghost predicate AsSent(puts: seq<Put>, since: nat, provider: Provider, summaries: seq<Summary>) {
    forall k, j | since <= k < |puts| && 0 <= j < |summaries| && summaries[j].thread == puts[k].thread ::
      AnswersText(provider, summaries[j].text, puts[k].vector)
  }

  /** The provider computes `embed` of each text, in their order. */
  ghost predicate Embeds(provider: Provider, embed: string -> Vector) {
    forall n, texts, i: nat | provider(n, texts).Vectors? && i < |texts| && i < |provider(n, texts).vectors| ::
      provider(n, texts).vectors[i] == embed(texts[i])
  }

  /** Each summary given a vector from `since` on was given the one of its own text. */
  predicate Embedded(puts: seq<Put>, since: nat, summaries: seq<Summary>, embed: string -> Vector) {
    forall k, j | since <= k < |puts| && 0 <= j < |summaries| && summaries[j].thread == puts[k].thread ::
      puts[k].vector == embed(summaries[j].text)
  }

  lemma SentIsEmbedded(puts: seq<Put>, since: nat, provider: Provider, summaries: seq<Summary>)
    requires AsSent(puts, since, provider, summaries)
    ensures forall embed | Embeds(provider, embed) :: Embedded(puts, since, summaries, embed)
  {
  }

  /** And all under the one the file is stamped with. */
  predicate Stamped(st: State, puts: seq<Put>, since: nat) {
    |puts| > since ==> st.held.Some? && Under(puts, since, st.held.value.model)
  }

  /** A file that has vectors has a stamp. */
  predicate StampedFile(st: State) {
    st.vectors != map[] ==> st.held.Some?
  }

  /** What the provider says to one call: it throws, or vectors in the order of the texts, and maybe a model. */
  datatype Answer = Throws | Vectors(vectors: seq<Vector>, model: Option<string>)

  type Provider = (nat, seq<string>) -> Answer

  const MAX_SUMMARIES_PER_EMBED_CALL: nat := 16

  /** The file takes vectors of this model and width. */
  predicate Fits(st: State, h: Held) {
    st.held == None || st.held == Some(h)
  }

  predicate GoodAnswer(answer: Answer, n: nat, model: string, h: Held) {
    && answer.Vectors? && |answer.vectors| == n && answer.model.UnwrapOr(model) == h.model
    && forall i | 0 <= i < n :: |answer.vectors[i]| == h.dims
  }

  /** Asked for up to sixteen texts at a time, the provider answers each, always under one model and of one width. */
  ghost predicate GoodFor(provider: Provider, model: string, h: Held) {
    forall n, texts | |texts| <= 16 :: GoodAnswer(provider(n, texts), |texts|, model, h)
  }

  lemma GoodForOne(provider: Provider, model: string, h: Held, h': Held)
    requires GoodFor(provider, model, h) && GoodFor(provider, model, h')
    ensures h == h'
  {
    assert GoodAnswer(provider(0, [""]), 1, model, h) && GoodAnswer(provider(0, [""]), 1, model, h');
    assert |provider(0, [""]).vectors[0]| == h.dims;
  }

  /** The last line a run prints; `Died` prints nothing. */
  datatype Closing =
    | NothingToRebuild
    | RebuiltAll(n: nat)
    | AtLimit(n: nat)
    | NoVectorFor(n: nat)
    | Failed
    | Died

  /** The store after some vectors of a run: they went to the oldest pending summaries, in order. */
  predicate Progress(st0: State, st: State, puts: seq<Put>) {
    && st == AllStored(st0, puts)
    && |puts| <= |Pending(st0)|
    && PutThreads(puts) == Threads(Pending(st0))[..|puts|]
    && Pending(st) == Pending(st0)[|puts|..]
  }

  lemma {:induction false} UnembeddedAfter(summaries: seq<Summary>, vectors: map<string, Vector>, v: Vector)
    requires DistinctThreads(summaries) && Unembedded(summaries, vectors) != []
    ensures
      var pending := Unembedded(summaries, vectors);
      Unembedded(summaries, vectors[pending[0].thread := v]) == pending[1..]
  {
    var init, l := summaries[..|summaries| - 1], Last(summaries);
    var pending := Unembedded(summaries, vectors);
    var before := Unembedded(init, vectors);
    if before == [] {
      NoneLeft(init, vectors, pending[0].thread, v);
    } else {
      UnembeddedAfter(init, vectors, v);
      UnembeddedAre(init, vectors, 0);
      assert pending[0] == before[0];
      assert l.thread !in vectors ==> l.thread != before[0].thread;
    }
  }

  lemma {:induction false} NoneLeft(summaries: seq<Summary>, vectors: map<string, Vector>, thread: string, v: Vector)
    requires Unembedded(summaries, vectors) == []
    ensures Unembedded(summaries, vectors[thread := v]) == []
  {
    if summaries != [] {
      NoneLeft(summaries[..|summaries| - 1], vectors, thread, v);
    }
  }

  /** A pending summary is one of the summaries, and has no vector. */
  lemma {:induction false} UnembeddedAre(summaries: seq<Summary>, vectors: map<string, Vector>, k: nat)
    requires k < |Unembedded(summaries, vectors)|
    ensures Unembedded(summaries, vectors)[k] in summaries && Unembedded(summaries, vectors)[k].thread !in vectors
  {
    var init := summaries[..|summaries| - 1];
    if k < |Unembedded(init, vectors)| {
      UnembeddedAre(init, vectors, k);
    }
  }

  lemma ProgressStarts(st0: State)
    ensures Progress(st0, st0, [])
  {
  }

  lemma ProgressGrows(st0: State, st: State, puts: seq<Put>, p: Put)
    requires Progress(st0, st, puts) && DistinctThreads(st0.summaries) && st.summaries == st0.summaries
    requires Pending(st) != [] && p.thread == Pending(st)[0].thread
    ensures Progress(st0, Stored(st, p), puts + [p]) && Stored(st, p).summaries == st0.summaries
  {
    UnembeddedAfter(st.summaries, st.vectors, p.vector);
    assert (puts + [p])[..|puts|] == puts;
    var all := Threads(Pending(st0));
    assert all[|puts|] == p.thread;
    assert PutThreads(puts + [p]) == PutThreads(puts) + [p.thread];
  }

  lemma StampStays(st: State, puts: seq<Put>, p: Put, since: nat)
    requires Stamped(st, puts, since) && since <= |puts| && Accepts(st, p)
    ensures Stamped(Stored(st, p), puts + [p], since)
  {
  }

  /** One vector of a batch: stored for the oldest pending summary, or refused and nothing changed. */
  method StoreOne(store: Store, p: Put, ghost st0: State, ghost since: nat) returns (ok: bool)
    requires DistinctThreads(st0.summaries) && st0.summaries == store.summaries && since <= |store.puts|
    requires Progress(st0, store.Now(), store.puts[since..])
    requires Pending(store.Now()) != [] && p.thread == Pending(store.Now())[0].thread
    requires Stamped(store.Now(), store.puts, since)
    modifies store
    ensures store.drops == old(store.drops) && Stamped(store.Now(), store.puts, since)
    ensures store.puts == if ok then old(store.puts) + [p] else old(store.puts)
    ensures Progress(st0, store.Now(), store.puts[since..])
    ensures Pending(store.Now()) == if ok then old(Pending(store.Now()))[1..] else old(Pending(store.Now()))
    ensures (ok <==> Accepts(old(store.Now()), p)) && (ok ==> store.held == Some(Held(p.model, |p.vector|)))
    ensures !ok ==> store.Now() == old(store.Now())
  {
    hide Progress, AllStored, Unembedded;
    ghost var puts, now := store.puts[since..], store.Now();
    ProgressGrows(st0, now, puts, p);
    PendingMoves(st0, now, puts, p);
    if Accepts(now, p) {
      StampStays(now, store.puts, p, since);
    }
    hide Stamped;
    ok := store.PutEmbedding(p);
    assert ok ==> store.puts[since..] == puts + [p];
  }

  /** The vectors of a batch, from `since` on, are the answer's own, in its order, under its model, for its threads. */
  predicate FromAnswer(puts: seq<Put>, since: nat, batch: seq<Summary>, answer: Answer, model: string)
    requires answer.Vectors?
  {
    && since <= |puts| && |puts| - since <= |answer.vectors| && |puts| - since <= |batch|
    && forall k | since <= k < |puts| ::
         && puts[k].vector == answer.vectors[k - since] && puts[k].model == answer.model.UnwrapOr(model)
         && puts[k].thread == batch[k - since].thread
  }

  lemma FromAnswerSnoc(puts: seq<Put>, since: nat, batch: seq<Summary>, answer: Answer, model: string, p: Put)
    requires answer.Vectors? && FromAnswer(puts, since, batch, answer, model)
    requires |puts| - since < |answer.vectors| && |puts| - since < |batch|
    requires p.vector == answer.vectors[|puts| - since] && p.model == answer.model.UnwrapOr(model)
    requires p.thread == batch[|puts| - since].thread
    ensures FromAnswer(puts + [p], since, batch, answer, model)
  {
  }

  /**
   * `embedBatch`: one provider call, and its vectors stored one by one. `budget` is how many more stores
   * the process lives for.
   */
  method EmbedBatch(
      store: Store, model: string, batch: seq<Summary>, answer: Answer, budget: nat,
      ghost st0: State, ghost since: nat, ghost h: Held)
    returns (stored: nat, closing: Option<Closing>)
    requires DistinctThreads(st0.summaries) && st0.summaries == store.summaries && since <= |store.puts|
    requires Progress(st0, store.Now(), store.puts[since..]) && batch <= Pending(store.Now())
    requires Stamped(store.Now(), store.puts, since)
    modifies store
    ensures old(store.puts) <= store.puts && store.drops == old(store.drops)
    ensures Stamped(store.Now(), store.puts, since)
    ensures |store.puts| == |old(store.puts)| + stored && stored <= |batch| && stored <= budget
    ensures Progress(st0, store.Now(), store.puts[since..])
    ensures answer.Vectors? ==> FromAnswer(store.puts, |old(store.puts)|, batch, answer, model)
    ensures answer.Throws? ==> closing == Some(Failed) && stored == 0
    ensures closing == None ==>
              answer.Vectors? && stored == (if |answer.vectors| < |batch| then |answer.vectors| else |batch|)
    ensures closing != None ==> closing == Some(Failed) || (closing == Some(Died) && stored == budget)
    ensures Fits(old(store.Now()), h) && GoodAnswer(answer, |batch|, model, h) ==>
              Fits(store.Now(), h) && closing != Some(Failed) && (closing == None ==> stored == |batch|)
  {
    ghost var good := Fits(store.Now(), h) && GoodAnswer(answer, |batch|, model, h);
    stored, closing := 0, None;
    if answer.Throws? {
      closing := Some(Failed);
      return;
    }
    ghost var before := store.puts;
    assert Stocked(store.Now(), store.puts, before, 0, batch, answer, model, st0, since);
    hide Stocked, Progress, Stamped, FromAnswer, Unembedded, Fits;
    var i := 0;
    while i < |batch|
      invariant i <= |batch| && closing == None && store.drops == old(store.drops)
      invariant stored == (if |answer.vectors| < i then |answer.vectors| else i) <= budget
      invariant Stocked(store.Now(), store.puts, before, stored, batch, answer, model, st0, since)
      invariant good ==> Fits(store.Now(), h)
    {
      if i < |answer.vectors| {
        if stored == budget {
          closing := Some(Died);
          break;
        }
        var ok := StoreNext(store, model, batch, answer, i, before, st0, since, h);
        if !ok {
          closing := Some(Failed);
          break;
        }
        stored := stored + 1;
      }
      i := i + 1;
    }
    StockedMeans(store.Now(), store.puts, before, stored, batch, answer, model, st0, since);
  }

  /** `k` vectors of a batch are stored, on top of what was before. */
  predicate Stocked(
      st: State, puts: seq<Put>, before: seq<Put>, k: nat, batch: seq<Summary>, answer: Answer, model: string,
      st0: State, since: nat)
    requires answer.Vectors?
  {
    && since <= |before| && before <= puts && |puts| == |before| + k && k <= |batch|
    && st.summaries == st0.summaries && Progress(st0, st, puts[since..]) && Stamped(st, puts, since)
    && batch[k..] <= Pending(st) && FromAnswer(puts, |before|, batch, answer, model)
  }

  lemma StockedMeans(
      st: State, puts: seq<Put>, before: seq<Put>, k: nat, batch: seq<Summary>, answer: Answer, model: string,
      st0: State, since: nat)
    requires answer.Vectors? && Stocked(st, puts, before, k, batch, answer, model, st0, since)
    ensures since <= |before| && before <= puts && |puts| == |before| + k && k <= |batch|
    ensures Progress(st0, st, puts[since..]) && Stamped(st, puts, since)
    ensures FromAnswer(puts, |before|, batch, answer, model)
  {
  }

  /** The next vector of a batch, if the store takes it. */
  method StoreNext(
      store: Store, model: string, batch: seq<Summary>, answer: Answer, i: nat, ghost before: seq<Put>,
      ghost st0: State, ghost since: nat, ghost h: Held) returns (ok: bool)
    requires answer.Vectors? && i < |batch| && i < |answer.vectors| && DistinctThreads(st0.summaries)
    requires Stocked(store.Now(), store.puts, before, i, batch, answer, model, st0, since)
    modifies store
    ensures store.drops == old(store.drops)
    ensures Stocked(store.Now(), store.puts, before, if ok then i + 1 else i, batch, answer, model, st0, since)
    ensures Fits(old(store.Now()), h) && GoodAnswer(answer, |answer.vectors|, model, h) ==> ok && Fits(store.Now(), h)
  {
    hide Progress, Stamped, FromAnswer, Unembedded, DistinctThreads;
    ghost var puts, pending := store.puts, Pending(store.Now());
    var p := Put(batch[i].thread, answer.vectors[i], answer.model.UnwrapOr(model));
    assert pending[0] == batch[i..][0];
    ok := StoreOne(store, p, st0, since);
    if ok {
      FromAnswerSnoc(puts, |before|, batch, answer, model, p);
      TailsFollow(batch, i, pending);
    }
  }

  lemma TailsFollow(batch: seq<Summary>, i: nat, pending: seq<Summary>)
    requires i < |batch| && batch[i..] <= pending
    ensures batch[i + 1..] <= pending[1..]
  {
    assert batch[i + 1..] == batch[i..][1..];
  }

  lemma PendingMoves(st0: State, st: State, puts: seq<Put>, p: Put)
    requires Progress(st0, st, puts) && Progress(st0, Stored(st, p), puts + [p])
    ensures Pending(st) != [] && Pending(Stored(st, p)) == Pending(st)[1..]
  {
  }

  /**
   * `runRebuildCommand`, from the opened store to the closing line. Whatever the provider does and wherever
   * the process dies, the vectors stored went to the oldest pending summaries, in order and no more than
   * `limit` of them; a line saying that all is rebuilt is printed only when nothing is pending.
   */
  method RunRebuild(store: Store, model: string, limit: nat, provider: Provider, budget: nat) returns (closing: Closing)
    requires DistinctThreads(store.summaries)
    modifies store
    ensures old(store.puts) <= store.puts
    ensures
      var st0, k := Begun(old(store.Now()), model), |store.puts| - |old(store.puts)|;
      && Progress(st0, store.Now(), store.puts[|old(store.puts)|..])
      && store.drops == old(store.drops) + (if MustDrop(old(store.Now()), model) then 1 else 0)
      && k <= limit && k <= budget
      && k + |Pending(store.Now())| == |Pending(st0)|
      && Ends(closing, k, limit, budget, store.Now(), store.puts, |old(store.puts)|)
    ensures AsServed(store.puts, |old(store.puts)|, provider, model)
    ensures Stamped(store.Now(), store.puts, |old(store.puts)|)
    // Whatever the provider computes of a text, each summary is given it of its own.
    ensures forall embed | Embeds(provider, embed) :: Embedded(store.puts, |old(store.puts)|, store.summaries, embed)
    // With a provider that answers, and answers what the file takes, it goes on to its limit or to the end.
    ensures forall h | GoodFor(provider, model, h) && Fits(Begun(old(store.Now()), model), h) ::
              !closing.Failed? && !closing.NoVectorFor?
    // What the lines that name a model say is true of it, on this condition.
    ensures forall served | ServesAs(provider, model, served) ::
              && Under(store.puts, |old(store.puts)|, served)
              && (closing.RebuiltAll? ==> (LineIsTrue(closing, model, store.Now(), store.puts, |old(store.puts)|) <==>
                                           served == model))
    ensures closing.NothingToRebuild? && StampedFile(old(store.Now())) ==>
              LineIsTrue(closing, model, store.Now(), store.puts, |old(store.puts)|)
  {
    ghost var st0, since := Begun(store.Now(), model), |store.puts|;
    if store.held.Some? && store.held.value.model != model {
      store.DropEmbeddings();
    }
    assert store.puts[since..] == [];
    ProgressStarts(st0);
    ghost var h := Held("", 0);
    if good :| GoodFor(provider, model, good) {
      h := good;
    }
    closing := EmbedPending(store, model, limit, provider, budget, st0, since, h);
    forall other | GoodFor(provider, model, other) && Fits(st0, other)
      ensures !closing.Failed? && !closing.NoVectorFor?
    {
      GoodForOne(provider, model, h, other);
    }
    ProgressCounts(st0, store.Now(), store.puts[since..]);
    SentIsEmbedded(store.puts, since, provider, store.summaries);
    LinesMean(closing, model, old(store.Now()), store.Now(), limit, provider, budget, store.puts, since);
    hide *;
  }

  /** One turn of the loop: the oldest pending summaries, one provider call, and what it stored. */
  method EmbedNext(
      store: Store, model: string, wanted: nat, provider: Provider, call: nat, budget: nat,
      ghost st0: State, ghost since: nat, ghost h: Held)
    returns (asked: nat, stored: nat, ended: Option<Closing>)
    requires DistinctThreads(st0.summaries) && st0.summaries == store.summaries && since <= |store.puts| && wanted > 0
    requires Progress(st0, store.Now(), store.puts[since..])
    requires Stamped(store.Now(), store.puts, since) && AsServed(store.puts, since, provider, model)
    requires AsSent(store.puts, since, provider, store.summaries)
    modifies store
    ensures old(store.puts) <= store.puts && store.drops == old(store.drops)
    ensures Stamped(store.Now(), store.puts, since) && AsServed(store.puts, since, provider, model)
    ensures AsSent(store.puts, since, provider, store.summaries)
    ensures |store.puts| == |old(store.puts)| + stored && stored <= asked <= wanted && stored <= budget
    ensures Progress(st0, store.Now(), store.puts[since..])
    ensures asked == 0 <==> old(Pending(store.Now())) == []
    ensures stored == 0 ==> Pending(store.Now()) == old(Pending(store.Now()))
    ensures ended != None ==> ended == Some(Failed) || (ended == Some(Died) && stored == budget)
    ensures GoodFor(provider, model, h) && Fits(old(store.Now()), h) && wanted <= 16 ==>
              Fits(store.Now(), h) && ended != Some(Failed) && (ended == None ==> stored == asked)
  {
    hide Unembedded, AllStored;
    ghost var before, now, tail := store.puts, store.Now(), store.puts[since..];
    var batch := store.SummariesNeedingEmbedding(wanted);
    asked, stored, ended := |batch|, 0, None;
    if |batch| == 0 { return; }
    var texts := seq(|batch|, i requires 0 <= i < |batch| => batch[i].text);
    var answer := provider(call, texts);
    assert GoodFor(provider, model, h) && |texts| <= 16 ==> GoodAnswer(answer, |texts|, model, h);
    hide GoodFor, GoodAnswer;
    forall i | 0 <= i < |batch| ensures batch[i] in store.summaries {
      UnembeddedAre(store.summaries, store.vectors, i);
    }
    hide Progress, AsServed, AsSent, Stamped, FromAnswer;
    stored, ended := EmbedBatch(store, model, batch, answer, budget, st0, since, h);
    if stored == 0 {
      assert store.puts == before;
      SameProgress(st0, now, store.Now(), tail);
    } else {
      AnswerServed(before, store.puts, since, provider, call, batch, texts, model);
      AnswerSent(before, store.puts, since, provider, call, batch, texts, model, store.summaries);
    }
  }

  lemma SameProgress(st0: State, st: State, st': State, puts: seq<Put>)
    requires Progress(st0, st, puts) && Progress(st0, st', puts)
    ensures st == st'
  {
  }

  lemma AnswerServed(
      before: seq<Put>, puts: seq<Put>, since: nat, provider: Provider, call: nat,
      batch: seq<Summary>, texts: seq<string>, model: string)
    requires before <= puts && since <= |before| && AsServed(before, since, provider, model)
    requires provider(call, texts).Vectors? && FromAnswer(puts, |before|, batch, provider(call, texts), model)
    ensures AsServed(puts, since, provider, model)
  {
    forall k | since <= k < |puts| ensures Serves(provider, model, puts[k].model) {
      if k < |before| {
        assert puts[k] == before[k];
      } else {
        assert puts[k].model == provider(call, texts).model.UnwrapOr(model);
      }
    }
  }

  lemma AnswerSent(
      before: seq<Put>, puts: seq<Put>, since: nat, provider: Provider, call: nat,
      batch: seq<Summary>, texts: seq<string>, model: string, summaries: seq<Summary>)
    requires before <= puts && since <= |before| && AsSent(before, since, provider, summaries)
    requires provider(call, texts).Vectors? && FromAnswer(puts, |before|, batch, provider(call, texts), model)
    requires |texts| == |batch| && forall i | 0 <= i < |batch| :: texts[i] == batch[i].text && batch[i] in summaries
    requires DistinctThreads(summaries)
    ensures AsSent(puts, since, provider, summaries)
  {
    forall k, j | since <= k < |puts| && 0 <= j < |summaries| && summaries[j].thread == puts[k].thread
      ensures AnswersText(provider, summaries[j].text, puts[k].vector)
    {
      if k < |before| {
        assert puts[k] == before[k];
      } else {
        var i := k - |before|;
        var x :| 0 <= x < |summaries| && summaries[x] == batch[i];
        assert x == j;
        assert texts[i] == summaries[j].text && provider(call, texts).vectors[i] == puts[k].vector;
      }
    }
  }

  /** The loop of `runRebuildCommand`, and the line it ends on. */
  method EmbedPending(
      store: Store, model: string, limit: nat, provider: Provider, budget: nat,
      ghost st0: State, ghost since: nat, ghost h: Held)
    returns (closing: Closing)
    requires DistinctThreads(st0.summaries) && st0.summaries == store.summaries && since == |store.puts|
    requires Progress(st0, store.Now(), store.puts[since..])
    modifies store
    ensures old(store.puts) <= store.puts && store.drops == old(store.drops)
    ensures Progress(st0, store.Now(), store.puts[since..])
    ensures |store.puts| - since <= limit && |store.puts| - since <= budget
    ensures Ends(closing, |store.puts| - since, limit, budget, store.Now(), store.puts, since)
    ensures AsServed(store.puts, since, provider, model) && Stamped(store.Now(), store.puts, since)
    ensures AsSent(store.puts, since, provider, store.summaries)
    ensures GoodFor(provider, model, h) && Fits(old(store.Now()), h) ==> !closing.Failed? && !closing.NoVectorFor?
  {
    ghost var good := GoodFor(provider, model, h) && Fits(store.Now(), h);
    assert AsServed(store.puts, since, provider, model) && AsSent(store.puts, since, provider, store.summaries);
    hide Unembedded, Progress, Under, AsServed, AsSent, GoodFor, Fits;
    var embedded, calls := 0, 0;
    while embedded < limit
      invariant embedded <= limit && embedded <= budget
      invariant old(store.puts) <= store.puts && |store.puts| == since + embedded
      invariant store.drops == old(store.drops)
      invariant Progress(st0, store.Now(), store.puts[since..])
      invariant AsServed(store.puts, since, provider, model) && Stamped(store.Now(), store.puts, since)
      invariant AsSent(store.puts, since, provider, store.summaries) && (good ==> Fits(store.Now(), h))
      decreases limit - embedded
    {
      var left := limit - embedded;
      var wanted := if MAX_SUMMARIES_PER_EMBED_CALL < left then MAX_SUMMARIES_PER_EMBED_CALL else left;
      var asked, stored, ended := EmbedNext(store, model, wanted, provider, calls, budget - embedded, st0, since, h);
      calls := calls + 1;
      if asked == 0 {
        return if embedded == 0 then NothingToRebuild else RebuiltAll(embedded);
      }
      if ended.Some? {
        return ended.value;
      }
      if stored == 0 {
        return NoVectorFor(embedded);
      }
      embedded := embedded + stored;
    }
    closing := AtLimit(embedded);
  }

  /** What each last line says of the number stored, of what is left, and of what the file is stamped with. */
  predicate Ends(closing: Closing, k: nat, limit: nat, budget: nat, st: State, puts: seq<Put>, since: nat) {
    match closing
    case NothingToRebuild => k == 0 && Pending(st) == []
    case RebuiltAll(n) =>
      n == k && k > 0 && Pending(st) == [] && st.held.Some? && Under(puts, since, st.held.value.model)
    case AtLimit(n) => n == k && k == limit
    case NoVectorFor(n) => n == k && k < limit && Pending(st) != []
    case Failed => true
    case Died => k == budget
  }

  /** The two lines that name the configured model: every summary has, or these now have, a vector under it. */
  predicate LineIsTrue(closing: Closing, model: string, st: State, puts: seq<Put>, since: nat) {
    match closing
    case NothingToRebuild =>
      forall s | s in st.summaries :: s.thread in st.vectors && st.held.Some? && st.held.value.model == model
    case RebuiltAll(n) => since + n == |puts| && Under(puts, since, model)
    case _ => true
  }

  lemma LinesMean(
      closing: Closing, model: string, was: State, st: State, limit: nat, provider: Provider, budget: nat,
      puts: seq<Put>, since: nat)
    requires since <= |puts| && AsServed(puts, since, provider, model)
    requires Progress(Begun(was, model), st, puts[since..])
    requires Ends(closing, |puts| - since, limit, budget, st, puts, since)
    ensures forall served | ServesAs(provider, model, served) ::
              && Under(puts, since, served)
              && (closing.RebuiltAll? ==> (LineIsTrue(closing, model, st, puts, since) <==> served == model))
    ensures closing.NothingToRebuild? && StampedFile(was) ==> LineIsTrue(closing, model, st, puts, since)
  {
    forall served | ServesAs(provider, model, served)
      ensures Under(puts, since, served)
      ensures closing.RebuiltAll? ==> (LineIsTrue(closing, model, st, puts, since) <==> served == model)
    {
      hide Unembedded, Progress;
      if closing.RebuiltAll? {
        assert puts[since].model == served;
      }
    }
    if closing.NothingToRebuild? && StampedFile(was) {
      assert st == Begun(was, model);
      NonePending(st.summaries, st.vectors);
    }
  }

  lemma {:induction false} NonePending(summaries: seq<Summary>, vectors: map<string, Vector>)
    requires Unembedded(summaries, vectors) == []
    ensures forall s | s in summaries :: s.thread in vectors
  {
    if summaries != [] {
      NonePending(summaries[..|summaries| - 1], vectors);
    }
  }

  /** Conservation: what was embedded and what is pending add up to what was pending. */
  lemma ProgressCounts(st0: State, st: State, puts: seq<Put>)
    requires Progress(st0, st, puts)
    ensures |puts| + |Pending(st)| == |Pending(st0)|
  {
  }
}
