/** Rebuild runs one after another, each stopped anywhere: `apps/server/src/rebuild-cli.ts` is resumable. */
module RebuildRuns {
  import opened Base
  import opened Text
  import opened Rebuild

  /** What the file holds after some runs, each given by the vectors it managed to store. */
  function After(st: State, model: string, runs: seq<seq<Put>>): State {
    if runs == [] then st
    else AllStored(Begun(After(st, model, runs[..|runs| - 1]), model), Last(runs))
  }

  /** Each run is one that `Rebuild.RunRebuild` can make of the file as it found it. */
  predicate EachRuns(st: State, model: string, runs: seq<seq<Put>>, served: string) {
    runs == [] ||
    var before := After(st, model, runs[..|runs| - 1]);
    && EachRuns(st, model, runs[..|runs| - 1], served)
    && Progress(Begun(before, model), AllStored(Begun(before, model), Last(runs)), Last(runs))
    && Under(Last(runs), 0, served)
  }

  /** How often the vectors were dropped. */
  function Drops(st: State, model: string, runs: seq<seq<Put>>): nat {
    if runs == [] then 0
    else
      var init := runs[..|runs| - 1];
      Drops(st, model, init) + (if MustDrop(After(st, model, init), model) then 1 else 0)
  }

  function Together(runs: seq<seq<Put>>): seq<Put> {
    if runs == [] then [] else Together(runs[..|runs| - 1]) + Last(runs)
  }

  lemma {:induction false} StoredInTwo(st: State, a: seq<Put>, b: seq<Put>)
    ensures AllStored(st, a + b) == AllStored(AllStored(st, a), b)
    decreases |b|
  {
    hide Stored;
    if b == [] {
      assert a + b == a;
    } else {
      var init := b[..|b| - 1];
      StoredInTwo(st, a, init);
      assert (a + b)[..|a + b| - 1] == a + init;
    }
  }

  lemma ProgressInTwo(st0: State, st1: State, a: seq<Put>, st2: State, b: seq<Put>)
    requires Progress(st0, st1, a) && Progress(st1, st2, b)
    ensures Progress(st0, st2, a + b)
  {
    StoredInTwo(st0, a, b);
    hide Stored, AllStored, Unembedded;
    var all := Threads(Pending(st0));
    assert Threads(Pending(st1)) == all[|a|..];
    assert all[..|a + b|] == all[..|a|] + all[|a|..][..|b|];
    assert PutThreads(a + b) == PutThreads(a) + PutThreads(b);
    assert Pending(st0)[|a|..][|b|..] == Pending(st0)[|a + b|..];
  }

  /** A file is under the served model once anything was stored, and no stamp is left by a drop. */
  lemma {:induction false} StampOf(st: State, puts: seq<Put>, served: string)
    requires Under(puts, 0, served)
    ensures AllStored(st, puts).held == if puts == [] then st.held else Some(Held(served, |Last(puts).vector|))
    ensures AllStored(st, puts).summaries == st.summaries
    decreases |puts|
  {
    if puts != [] {
      var init := puts[..|puts| - 1];
      assert Under(init, 0, served);
      StampOf(st, init, served);
      assert puts[|puts| - 1].model == served;
    }
  }

  lemma BegunMeets(st: State, model: string)
    ensures !MustDrop(Begun(st, model), model) && Begun(st, model).summaries == st.summaries
  {
  }

  /**
   * Resumability: when the provider serves the configured model, any number of runs, each stopped anywhere,
   * is one run. The file ends as if one run had stored all their vectors; it is dropped once at most, and
   * only by the first; the vectors went to the oldest pending summaries, in order.
   */
  lemma {:induction false} ManyRunsAreOne(st: State, model: string, runs: seq<seq<Put>>)
    requires DistinctThreads(st.summaries) && EachRuns(st, model, runs, model) && runs != []
    ensures Progress(Begun(st, model), After(st, model, runs), Together(runs))
    ensures Drops(st, model, runs) == if MustDrop(st, model) then 1 else 0
    ensures !MustDrop(After(st, model, runs), model)
    decreases |runs|
  {
    hide Progress, AllStored, Under;
    var init, puts := runs[..|runs| - 1], Last(runs);
    var before := After(st, model, init);
    BegunMeets(before, model);
    StampOf(Begun(before, model), puts, model);
    if init == [] {
      assert Together(runs) == [] + puts == puts;
    } else {
      ManyRunsAreOne(st, model, init);
      ProgressInTwo(Begun(st, model), before, Together(init), After(st, model, runs), puts);
    }
  }

  predicate DistinctPuts(puts: seq<Put>) {
    forall i, j | 0 <= i < j < |puts| :: puts[i].thread != puts[j].thread
  }

  /** No summary is embedded twice, over all of those runs. */
  lemma NothingTwice(st: State, model: string, runs: seq<seq<Put>>)
    requires DistinctThreads(st.summaries) && EachRuns(st, model, runs, model) && runs != []
    ensures DistinctPuts(Together(runs))
  {
    ManyRunsAreOne(st, model, runs);
    var puts, pending := Together(runs), Pending(Begun(st, model));
    PendingDistinct(Begun(st, model).summaries, Begun(st, model).vectors);
    hide Unembedded, AllStored;
    forall i, j | 0 <= i < j < |puts| ensures puts[i].thread != puts[j].thread {
      assert PutThreads(puts)[i] == Threads(pending)[i] && PutThreads(puts)[j] == Threads(pending)[j];
    }
  }

  lemma {:induction false} PendingDistinct(summaries: seq<Summary>, vectors: map<string, Vector>)
    requires DistinctThreads(summaries)
    ensures DistinctThreads(Unembedded(summaries, vectors))
  {
    if summaries != [] {
      var init, l := summaries[..|summaries| - 1], Last(summaries);
      PendingDistinct(init, vectors);
      forall k | 0 <= k < |Unembedded(init, vectors)| ensures Unembedded(init, vectors)[k].thread != l.thread {
        UnembeddedAre(init, vectors, k);
        var j :| 0 <= j < |init| && init[j] == Unembedded(init, vectors)[k];
        assert summaries[j] == init[j];
      }
    }
  }

  /**
   * When they finish, the same summaries are embedded under the same model as after one run that was not
   * interrupted, and each was embedded in the same order.
   */
  lemma FinishedRunsAgree(st: State, model: string, runs: seq<seq<Put>>, once: seq<Put>)
    requires DistinctThreads(st.summaries) && EachRuns(st, model, runs, model) && runs != []
    requires EachRuns(st, model, [once], model)
    requires Pending(After(st, model, runs)) == [] && Pending(After(st, model, [once])) == []
    ensures PutThreads(Together(runs)) == PutThreads(once) == Threads(Pending(Begun(st, model)))
    ensures After(st, model, runs).vectors.Keys == After(st, model, [once]).vectors.Keys
    ensures Together(runs) != [] ==>
              After(st, model, runs).held.Some? && After(st, model, runs).held.value.model == model
              && After(st, model, [once]).held.Some? && After(st, model, [once]).held.value.model == model
  {
    ManyRunsAreOne(st, model, runs);
    ManyRunsAreOne(st, model, [once]);
    assert Together([once]) == [] + once == once;
    KeysOf(Begun(st, model), Together(runs));
    KeysOf(Begun(st, model), once);
    if Together(runs) != [] {
      assert Together(runs)[0].thread == PutThreads(Together(runs))[0];
      TogetherUnder(st, model, runs, model);
      StampOf(Begun(st, model), Together(runs), model);
      StampOf(Begun(st, model), once, model);
    }
    hide AllStored, Unembedded;
    FullPrefix(Threads(Pending(Begun(st, model))), PutThreads(Together(runs)));
    FullPrefix(Threads(Pending(Begun(st, model))), PutThreads(once));
  }

  lemma FullPrefix(all: seq<string>, some: seq<string>)
    requires |some| == |all| && some == all[..|some|]
    ensures some == all
  {
  }

  lemma {:induction false} TogetherUnder(st: State, model: string, runs: seq<seq<Put>>, served: string)
    requires EachRuns(st, model, runs, served)
    ensures Under(Together(runs), 0, served)
  {
    hide Progress, AllStored;
    if runs != [] {
      TogetherUnder(st, model, runs[..|runs| - 1], served);
    }
  }

  lemma {:induction false} KeysOf(st: State, puts: seq<Put>)
    ensures AllStored(st, puts).vectors.Keys == st.vectors.Keys + (set t | t in PutThreads(puts))
    decreases |puts|
  {
    if puts != [] {
      var init, p := puts[..|puts| - 1], Last(puts);
      KeysOf(st, init);
      assert PutThreads(puts) == PutThreads(init) + [p.thread];
      assert (set t | t in PutThreads(puts)) == (set t | t in PutThreads(init)) + {p.thread};
    } else {
      assert PutThreads(puts) == [];
    }
  }

  lemma NoRuns(st: State, model: string, served: string, given: bool, embed: string -> Vector)
    ensures After(st, model, []) == st && Drops(st, model, []) == 0 && Together([]) == []
    ensures EachRuns(st, model, [], served) && AmountsTo(st, model, served, given, embed, [], st, 0, [])
  {
  }

  lemma AfterSnoc(st: State, model: string, runs: seq<seq<Put>>, puts: seq<Put>)
    ensures After(st, model, runs + [puts]) == AllStored(Begun(After(st, model, runs), model), puts)
    ensures Together(runs + [puts]) == Together(runs) + puts
    ensures Drops(st, model, runs + [puts]) ==
            Drops(st, model, runs) + if MustDrop(After(st, model, runs), model) then 1 else 0
  {
    assert (runs + [puts])[..|runs|] == runs;
  }

  lemma EachRunsSnoc(st: State, model: string, runs: seq<seq<Put>>, puts: seq<Put>, served: string)
    requires EachRuns(st, model, runs, served) && Under(puts, 0, served)
    requires
      var begun := Begun(After(st, model, runs), model);
      Progress(begun, AllStored(begun, puts), puts)
    ensures EachRuns(st, model, runs + [puts], served)
  {
    hide Progress, Under;
    assert (runs + [puts])[..|runs|] == runs;
  }

  /** One run of the command, and the vectors it stored. */
  method RunOnce(
      store: Store, model: string, limit: nat, provider: Provider, budget: nat,
      ghost served: string, ghost embed: string -> Vector)
    returns (closing: Closing, ghost puts: seq<Put>)
    requires DistinctThreads(store.summaries) && ServesAs(provider, model, served)
    modifies store
    ensures store.puts == old(store.puts) + puts && Under(puts, 0, served)
    ensures Embeds(provider, embed) ==> Embedded(puts, 0, store.summaries, embed)
    ensures
      var begun := Begun(old(store.Now()), model);
      Progress(begun, AllStored(begun, puts), puts) && store.Now() == AllStored(begun, puts)
    ensures store.drops == old(store.drops) + if MustDrop(old(store.Now()), model) then 1 else 0
  {
    closing := RunRebuild(store, model, limit, provider, budget);
    puts := store.puts[|old(store.puts)|..];
    hide AllStored, Unembedded, ServesAs, AsServed, Ends, Stamped, LineIsTrue, Begun;
    UnderTail(store.puts, |old(store.puts)|, served);
    if Embeds(provider, embed) {
      EmbeddedTail(store.puts, |old(store.puts)|, store.summaries, embed);
    }
  }

  /**
   * The command run again and again, each time with any limit, any provider of the one model, and dying
   * anywhere. When that model is the configured one, it comes to one run over what was pending, and no
   * summary is paid for twice.
   */
  method RunAgain(
      store: Store, model: string, limits: seq<nat>, providers: seq<Provider>, budgets: seq<nat>,
      ghost served: string, ghost embed: string -> Vector)
    returns (closings: seq<Closing>, ghost runs: seq<seq<Put>>)
    requires |limits| == |providers| == |budgets| && DistinctThreads(store.summaries)
    requires forall i | 0 <= i < |providers| :: ServesAs(providers[i], model, served)
    modifies store
    ensures |closings| == |runs| == |limits| && EachRuns(old(store.Now()), model, runs, served)
    ensures store.Now() == After(old(store.Now()), model, runs) && store.puts == old(store.puts) + Together(runs)
    ensures store.drops == old(store.drops) + Drops(old(store.Now()), model, runs)
    ensures AllEmbed(providers, embed) ==> Embedded(Together(runs), 0, store.summaries, embed)
    ensures served == model && limits != [] ==>
              && Progress(Begun(old(store.Now()), model), store.Now(), Together(runs))
              && store.drops == old(store.drops) + (if MustDrop(old(store.Now()), model) then 1 else 0)
              && DistinctPuts(Together(runs))
  {
    ghost var st, before, drops := store.Now(), store.puts, store.drops;
    ghost var given := AllEmbed(providers, embed);
    closings, runs := [], [];
    NoRuns(st, model, served, given, embed);
    hide Progress, Under, AllStored, Unembedded, ServesAs, Embeds, Embedded, AmountsTo;
    hide After, Drops, EachRuns, Together, Begun, MustDrop, DistinctThreads, DistinctPuts;
    for n := 0 to |limits|
      invariant |closings| == |runs| == n && before <= store.puts && drops <= store.drops
      invariant AmountsTo(st, model, served, given, embed, runs,
                          store.Now(), store.drops - drops, store.puts[|before|..])
    {
      var closing;
      closing, runs := RunNext(store, model, limits[n], providers[n], budgets[n],
                               st, before, drops, served, given, embed, runs);
      closings := closings + [closing];
    }
    AmountsMean(st, model, served, given, embed, runs, store.Now(), store.drops - drops, store.puts[|before|..]);
  }

  /** One run after some others. */
  method RunNext(
      store: Store, model: string, limit: nat, provider: Provider, budget: nat,
      ghost st: State, ghost before: seq<Put>, ghost drops: nat,
      ghost served: string, ghost given: bool, ghost embed: string -> Vector, ghost runs: seq<seq<Put>>)
    returns (closing: Closing, ghost runs': seq<seq<Put>>)
    requires before <= store.puts && drops <= store.drops && DistinctThreads(store.summaries)
    requires ServesAs(provider, model, served) && (given ==> Embeds(provider, embed))
    requires AmountsTo(st, model, served, given, embed, runs, store.Now(), store.drops - drops, store.puts[|before|..])
    modifies store
    ensures before <= store.puts && drops <= store.drops && |runs'| == |runs| + 1
    ensures AmountsTo(st, model, served, given, embed, runs', store.Now(), store.drops - drops, store.puts[|before|..])
  {
    hide Progress, Under, AllStored, Unembedded, ServesAs, Embeds, Embedded;
    hide After, Drops, EachRuns, Together, Begun, MustDrop, DistinctThreads, AmountsTo;
    ghost var now, had, dropped := store.Now(), store.puts[|before|..], store.drops - drops;
    ghost var puts;
    closing, puts := RunOnce(store, model, limit, provider, budget, served, embed);
    assert store.puts[|before|..] == had + puts;
    AmountsSnoc(st, model, served, given, embed, runs, now, dropped, had, puts);
    runs' := runs + [puts];
  }

  /** All the providers compute `embed`. */
  ghost predicate AllEmbed(providers: seq<Provider>, embed: string -> Vector) {
    forall i | 0 <= i < |providers| :: Embeds(providers[i], embed)
  }

  /**
   * What some runs have made of a file: its state, how often it was dropped, and what was stored; `given`: their
   * providers compute `embed`.
   */
  predicate AmountsTo(
      st: State, model: string, served: string, given: bool, embed: string -> Vector, runs: seq<seq<Put>>,
      now: State, drops: nat, puts: seq<Put>)
  {
    && EachRuns(st, model, runs, served) && now == After(st, model, runs) && drops == Drops(st, model, runs)
    && puts == Together(runs) && now.summaries == st.summaries
    && (given ==> Embedded(puts, 0, st.summaries, embed))
  }

  lemma AmountsSnoc(
      st: State, model: string, served: string, given: bool, embed: string -> Vector, runs: seq<seq<Put>>,
      now: State, drops: nat, had: seq<Put>, puts: seq<Put>)
    requires AmountsTo(st, model, served, given, embed, runs, now, drops, had) && Under(puts, 0, served)
    requires Progress(Begun(now, model), AllStored(Begun(now, model), puts), puts)
    requires given ==> Embedded(puts, 0, now.summaries, embed)
    ensures AmountsTo(st, model, served, given, embed, runs + [puts], AllStored(Begun(now, model), puts),
                      drops + (if MustDrop(now, model) then 1 else 0), had + puts)
  {
    AfterSnoc(st, model, runs, puts);
    EachRunsSnoc(st, model, runs, puts, served);
    StampOf(Begun(now, model), puts, served);
    BegunMeets(now, model);
    if given {
      EmbeddedConcat(had, puts, st.summaries, embed);
    }
    hide After, Drops, EachRuns, Together, Progress, Under, AllStored, Begun, MustDrop, Embedded;
  }

  lemma AmountsMean(
      st: State, model: string, served: string, given: bool, embed: string -> Vector, runs: seq<seq<Put>>,
      now: State, drops: nat, puts: seq<Put>)
    requires AmountsTo(st, model, served, given, embed, runs, now, drops, puts) && DistinctThreads(st.summaries)
    ensures EachRuns(st, model, runs, served) && now == After(st, model, runs) && drops == Drops(st, model, runs)
    ensures puts == Together(runs) && (given ==> Embedded(puts, 0, st.summaries, embed))
    ensures served == model && runs != [] ==>
              && Progress(Begun(st, model), now, puts) && DistinctPuts(puts)
              && drops == if MustDrop(st, model) then 1 else 0
  {
    if served == model && runs != [] {
      ManyRunsAreOne(st, model, runs);
      NothingTwice(st, model, runs);
    }
    hide After, Drops, EachRuns, Together, Progress, AllStored, Begun, MustDrop, DistinctPuts, Embedded;
  }

  lemma UnderTail(puts: seq<Put>, since: nat, served: string)
    requires since <= |puts| && Under(puts, since, served)
    ensures Under(puts[since..], 0, served)
  {
  }

  lemma EmbeddedTail(puts: seq<Put>, since: nat, summaries: seq<Summary>, embed: string -> Vector)
    requires since <= |puts| && Embedded(puts, since, summaries, embed)
    ensures Embedded(puts[since..], 0, summaries, embed)
  {
  }

  lemma EmbeddedConcat(a: seq<Put>, b: seq<Put>, summaries: seq<Summary>, embed: string -> Vector)
    requires Embedded(a, 0, summaries, embed) && Embedded(b, 0, summaries, embed)
    ensures Embedded(a + b, 0, summaries, embed)
  {
  }

  /**
   * Exactly when a run can be resumed: after a run that stored anything, the next one carries on from there
   * if and only if the model it was served is the configured one. Otherwise it drops everything and every
   * summary of the channel is pending again.
   */
  lemma ResumesIffServedAsked(st: State, model: string, puts: seq<Put>, served: string)
    requires puts != [] && Under(puts, 0, served)
    ensures
      var stopped := AllStored(Begun(st, model), puts);
      && (Begun(stopped, model) == stopped <==> served == model)
      && (served != model ==> Pending(Begun(stopped, model)) == st.summaries && Begun(stopped, model).skills == {})
  {
    var stopped := AllStored(Begun(st, model), puts);
    StampOf(Begun(st, model), puts, served);
    AllPending(stopped.summaries, map[]);
    hide AllStored, Unembedded;
  }

  lemma {:induction false} AllPending(summaries: seq<Summary>, vectors: map<string, Vector>)
    requires forall s | s in summaries :: s.thread !in vectors
    ensures Unembedded(summaries, vectors) == summaries
  {
    if summaries != [] {
      var init, l := summaries[..|summaries| - 1], summaries[|summaries| - 1];
      AllPending(init, vectors);
      assert l in summaries;
      assert summaries == init + [l];
    }
  }

  // ---------------------------------------------------------------------------
  // The meter's id for one batch.
  // ---------------------------------------------------------------------------

  /** What `turnIdFor` hashes: each thread and a line feed. */
  function TurnKey(threads: seq<string>): string {
    if threads == [] then [] else TurnKey(threads[..|threads| - 1]) + Last(threads) + "\n"
  }

  lemma {:induction false} TurnKeyIsLines(threads: seq<string>)
    ensures TurnKey(threads) == Join(threads + [""])
  {
    if threads == [] {
    } else {
      var init := threads[..|threads| - 1];
      TurnKeyIsLines(init);
      assert threads == init + [Last(threads)];
      assert [] + Last(threads) == Last(threads);
      JoinSnoc(threads, "");
      JoinExtend(init, "", Last(threads));
      assert "" + Last(threads) == Last(threads);
    }
  }

  /** Two batches hash the same bytes only if they are the same threads in the same order. */
  lemma TurnKeysDiffer(a: seq<string>, b: seq<string>)
    requires (forall t | t in a :: '\n' !in t) && (forall t | t in b :: '\n' !in t)
    ensures TurnKey(a) == TurnKey(b) <==> a == b
  {
    if TurnKey(a) == TurnKey(b) {
      TurnKeyIsLines(a);
      TurnKeyIsLines(b);
      SplitJoin(a + [""]);
      SplitJoin(b + [""]);
      assert a == (a + [""])[..|a + [""]| - 1] && b == (b + [""])[..|b + [""]| - 1];
    }
  }

  /** One call's batch, of at most `wanted` summaries. */
  function Batch(st: State, wanted: nat): seq<Summary> {
    if wanted <= |Pending(st)| then Pending(st)[..wanted] else Pending(st)
  }

  lemma PendingAmong(st: State)
    ensures forall s | s in Pending(st) :: s in st.summaries
  {
    forall k | 0 <= k < |Pending(st)| ensures Pending(st)[k] in st.summaries {
      UnembeddedAre(st.summaries, st.vectors, k);
    }
  }

  /**
   * A run dies in a batch of which `puts` are stored, and the next one carries on: its first batch goes under the
   * dead batch's id, and so is not metered again, exactly when nothing of that was stored and it is as long. In
   * any case it begins with the texts that were reported and not stored.
   */
  lemma RerunKeepsIdIff(st: State, st': State, puts: seq<Put>, model: string, wanted: nat, wanted': nat)
    requires DistinctThreads(st.summaries) && forall s | s in st.summaries :: '\n' !in s.thread
    requires Batch(st, wanted) != [] && |puts| <= |Batch(st, wanted)|
    requires Progress(st, st', puts) && !MustDrop(st', model)
    ensures
      var batch, next := Batch(st, wanted), Batch(Begun(st', model), wanted');
      && (TurnKey(Threads(next)) == TurnKey(Threads(batch)) <==> puts == [] && |next| == |batch|)
      && forall k | |puts| <= k < |batch| && k - |puts| < |next| :: next[k - |puts|] == batch[k]
  {
    var batch, next := Batch(st, wanted), Batch(Begun(st', model), wanted');
    var pending := Pending(st);
    PendingAmong(st);
    PendingDistinct(st.summaries, st.vectors);
    hide Unembedded, AllStored, TurnKey;
    assert Pending(st') == pending[|puts|..];
    forall k | 0 <= k < |batch| ensures '\n' !in Threads(batch)[k] {
      assert pending[k] in pending;
    }
    forall k | 0 <= k < |next| ensures next[k] == pending[|puts| + k] && '\n' !in Threads(next)[k] {
      assert pending[|puts| + k] in pending;
    }
    TurnKeysDiffer(Threads(next), Threads(batch));
    if Threads(next) == Threads(batch) {
      assert next[0].thread == Threads(next)[0] == Threads(batch)[0] == batch[0].thread;
    }
    if puts == [] && |next| == |batch| {
      assert next == batch;
    }
  }
}
