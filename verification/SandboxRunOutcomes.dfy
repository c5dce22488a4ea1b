/** What `runInSandbox` of `apps/runner/src/run.ts` answers, over every run: which outcome, and exactly when. */
module SandboxRunOutcomes {
  import opened Base
  import opened Authority
  import opened HopServer
  import opened SandboxRun

  // ---------------------------------------------------------------------------
  // What went wrong, read off the moves.
  // ---------------------------------------------------------------------------

  /** The ways a run can come to throw. */
  datatype Snag = Smooth | Unanswered | NameTaken | NeverListened

  /** Whether this move is a call of this run that throws, and why. */
  function SnagAt(env: Env, s: System, m: Move, r: nat): Snag {
    if !m.Call? || m.who != r || r >= |s.runs| then Smooth
    else
      match s.runs[r].pc
      case CreateNetwork =>
        if m.reply != Answers then Unanswered
        else if Taken(s.daemon, NetName(s.runs[r].plan.runId)) then NameTaken
        else Smooth
      case CreateHop | ConnectHop | StartHop | CreateSandbox | CreatePlain | StartSandbox | ReadLogs =>
        if m.reply != Answers then Unanswered else Smooth
      // The timer of `waitForHop`.
      case AwaitHop => if m.reply != Answers then NeverListened else Smooth
      // The time being up is no failure of the wait.
      case Wait => if m.reply == Fails then Unanswered else Smooth
      case _ => Smooth
  }

  /** The first of them in a run. */
  function FirstSnag(env: Env, plans: seq<Plan>, moves: seq<Move>, r: nat): Snag {
    if moves == [] then Smooth
    else
      var init := moves[..|moves| - 1];
      var before := FirstSnag(env, plans, init, r);
      if before != Smooth then before else SnagAt(env, RunAll(env, plans, init), Last(moves), r)
  }

  predicate LateAt(s: System, m: Move, r: nat) {
    m.Call? && m.who == r && r < |s.runs| && s.runs[r].pc == Wait && m.reply == Loses
  }

  /** The sandbox outlived its time. */
  predicate Late(env: Env, plans: seq<Plan>, moves: seq<Move>, r: nat) {
    moves != [] &&
    var init := moves[..|moves| - 1];
    Late(env, plans, init, r) || LateAt(RunAll(env, plans, init), Last(moves), r)
  }

  /** How far a run is, as its outcome will have it. */
  predicate Traced(run: Run, snag: Snag, late: bool) {
    && (snag != Smooth <==> run.outcome == Some(Threw) || run.pc == DropNetwork)
    && (snag == Smooth ==>
          match run.pc
          case KillLate => late && run.status == None
          case ReadLogs | RemoveSandbox | RemoveHop | RemoveNet | Finished => late <==> run.status == None
          case _ => !late && run.status == None)
  }

  lemma CallTraces(env: Env, s: System, r: nat, reply: Reply, snag: Snag, late: bool)
    requires r < |s.runs| && Ready(s.daemon, s.runs[r]) && Shape(s.runs[r]) && Traced(s.runs[r], snag, late)
    ensures
      var m := Call(r, reply);
      Traced(CallStep(env, s.daemon, r, s.runs[r], reply).1,
             if snag != Smooth then snag else SnagAt(env, s, m, r), late || LateAt(s, m, r))
  {
    hide Attached, Taken, NetName, Ready;
  }

  lemma OtherTraces(env: Env, s: System, r: nat, m: Move, snag: Snag, late: bool)
    requires r < |s.runs| && Shape(s.runs[r]) && Ready(s.daemon, s.runs[r]) && Traced(s.runs[r], snag, late) && !m.Call?
    ensures Traced(Effect(env, s.daemon, r, s.runs[r], m).1, snag, late)
  {
    hide HopStep, Kill, Ready;
  }

  lemma StepTraces(env: Env, s: System, r: nat, m: Move, snag: Snag, late: bool)
    requires r < |s.runs| && Shape(s.runs[r]) && Ready(s.daemon, s.runs[r]) && Traced(s.runs[r], snag, late)
    ensures Traced(Step(env, s, m).runs[r],
                   if snag != Smooth then snag else SnagAt(env, s, m, r), late || LateAt(s, m, r))
  {
    if m.who == r {
      if m.Call? {
        CallTraces(env, s, r, m.reply, snag, late);
      } else {
        OtherTraces(env, s, r, m, snag, late);
      }
    }
    hide Ready, Traced, CallStep, DeliverStep, HopStep;
  }

  lemma {:induction false} RunTraces(env: Env, plans: seq<Plan>, moves: seq<Move>, r: nat)
    requires r < |plans|
    ensures Traced(RunAll(env, plans, moves).runs[r], FirstSnag(env, plans, moves, r), Late(env, plans, moves, r))
  {
    hide Step, Traced, SnagAt, LateAt;
    if moves == [] {
      StartTraces(plans, r);
    } else {
      var init := moves[..|moves| - 1];
      var s := RunAll(env, plans, init);
      RunTraces(env, plans, init, r);
      ReachedParts(env, plans, init, r);
      StepTraces(env, s, r, Last(moves), FirstSnag(env, plans, init, r), Late(env, plans, init, r));
    }
  }

  lemma StartTraces(plans: seq<Plan>, r: nat)
    requires r < |plans|
    ensures Traced(Start(plans).runs[r], Smooth, false)
  {
  }

  /** What the results here use of a reached state. */
  lemma ReachedParts(env: Env, plans: seq<Plan>, moves: seq<Move>, r: nat)
    requires r < |plans|
    ensures
      var s := RunAll(env, plans, moves);
      var run := s.runs[r];
      && Shape(run) && Ready(s.daemon, run) && HopOk(env, run) && Heard(run) && Decided(s.daemon, run)
      && run.plan == plans[r]
  {
    RunKeeps(env, plans, moves);
    hide RunAll;
    var s := RunAll(env, plans, moves);
    assert RunOk(env, s.daemon, r, s.runs[r]);
    OkIsReady(env, s.daemon, r, s.runs[r]);
    hide HopOk, Heard, Holds, HoldsAll, Nets, Ledger, Gate, Clean, Shape, Ready, Decided, NetKept;
  }

  // ---------------------------------------------------------------------------
  // The outcome.
  // ---------------------------------------------------------------------------

  /** The denials among the lines the runner was handed. */
  function Delivered(run: Run): seq<string> {
    if run.cursor <= |run.hopState.log| then Denials(run.hopState.log[..run.cursor]) else []
  }

  /** The status the run's sandbox exited with, if it has. */
  function ExitOf(d: Daemon, run: Run): Option<int> {
    if run.sandbox.Some? && run.sandbox.value < |d.containers| then d.containers[run.sandbox.value].exit else None
  }

  /** What a run should answer, from what happened in it. */
  function AnswerOf(env: Env, plans: seq<Plan>, moves: seq<Move>, r: nat): Outcome
    requires r < |plans|
  {
    var s := RunAll(env, plans, moves);
    if FirstSnag(env, plans, moves, r) != Smooth then Threw
    else if Delivered(s.runs[r]) != [] then EgressDenied(Delivered(s.runs[r])[0])
    else if Late(env, plans, moves, r) then TimedOut
    else Completed(ExitOf(s.daemon, s.runs[r]).UnwrapOr(0))
  }

  /**
   * What a run answers: it throws exactly when one of its own calls went unanswered, its network's name was
   * taken, or its hop never listened; otherwise it is denied exactly when a denial was delivered, and names the
   * first host delivered; otherwise it is timed out exactly when its time was up before the sandbox had exited,
   * and completed with the sandbox's own status if not.
   */
  lemma OutcomeIs(env: Env, plans: seq<Plan>, moves: seq<Move>, r: nat)
    requires r < |plans| && RunAll(env, plans, moves).runs[r].outcome.Some?
    ensures RunAll(env, plans, moves).runs[r].outcome.value == AnswerOf(env, plans, moves, r)
    ensures AnswerOf(env, plans, moves, r).Completed? ==>
              ExitOf(RunAll(env, plans, moves).daemon, RunAll(env, plans, moves).runs[r]).Some?
  {
    RunTraces(env, plans, moves, r);
    ReachedParts(env, plans, moves, r);
    hide RunAll, FirstSnag, Late, Denials, HopOk, Ready;
  }

  /** And the other way round, before there is an outcome: nothing has thrown, or the build is being undone. */
  lemma NoOutcomeYet(env: Env, plans: seq<Plan>, moves: seq<Move>, r: nat)
    requires r < |plans| && RunAll(env, plans, moves).runs[r].outcome.None?
    ensures FirstSnag(env, plans, moves, r) != Smooth <==> RunAll(env, plans, moves).runs[r].pc == DropNetwork
  {
    RunTraces(env, plans, moves, r);
    hide RunAll, FirstSnag, Late;
  }

  /**
   * What a result means. `egress_denied` names the one host the hop announced, whose line was delivered, and
   * which the sheet does not allow or no sheet may reach; a status is the sandbox's own; `timed_out` and
   * `completed` say that no denial was delivered; a throw that something went wrong.
   */
  lemma OutcomeMeans(env: Env, plans: seq<Plan>, moves: seq<Move>, r: nat)
    requires r < |plans| && RunAll(env, plans, moves).runs[r].outcome.Some?
    ensures
      var s := RunAll(env, plans, moves);
      var run := s.runs[r];
      match run.outcome.value
      case EgressDenied(host) =>
        && plans[r].egress && (!env.policy(host, plans[r].allow) || ForbiddenForm(StripBrackets(host)))
        && Denials(run.hopState.log) == [host] == Delivered(run)
      case TimedOut => run.status == None && Delivered(run) == [] && Late(env, plans, moves, r)
      case Completed(code) =>
        && Delivered(run) == [] && !Late(env, plans, moves, r)
        && run.sandbox.Some? && run.sandbox.value < |s.daemon.containers|
        && s.daemon.containers[run.sandbox.value].exit == Some(code)
      case Threw => FirstSnag(env, plans, moves, r) != Smooth
  {
    RunTraces(env, plans, moves, r);
    ReachedParts(env, plans, moves, r);
    hide RunAll, FirstSnag, Late, Denials, Ready;
    var s := RunAll(env, plans, moves);
    var run := s.runs[r];
    if run.outcome.value.EgressDenied? {
      HeardIsPrefix(run.hopState.log, run.cursor);
      EmptyLog();
      assert run.hopState.log[..0] == [];
      if run.hopState.denied {
        ParsedForbiddenIff(Denials(run.hopState.log)[0]);
      }
      hide IsForbiddenAddress, ForbiddenForm, ParsedHost;
    }
  }

  /**
   * Exactly when a denied run is reported as denied: when nothing went wrong and a denial is among the lines
   * delivered before the logs were read. The hop having denied is not enough, nor is its line being written.
   */
  lemma DeniedIffDelivered(env: Env, plans: seq<Plan>, moves: seq<Move>, r: nat)
    requires r < |plans| && RunAll(env, plans, moves).runs[r].outcome.Some?
    ensures
      var run := RunAll(env, plans, moves).runs[r];
      && (run.outcome.value.EgressDenied? <==> FirstSnag(env, plans, moves, r) == Smooth && Delivered(run) != [])
      && (run.outcome.value.EgressDenied? ==> [run.outcome.value.host] == Delivered(run))
  {
    OutcomeIs(env, plans, moves, r);
    if RunAll(env, plans, moves).runs[r].outcome.value.EgressDenied? {
      OutcomeMeans(env, plans, moves, r);
    }
    hide RunAll, FirstSnag, Late, Delivered, ForbiddenForm;
  }

  lemma {:induction false} HeardIsPrefix(log: seq<Line>, n: nat)
    requires n <= |log|
    ensures Denials(log[..n]) <= Denials(log)
    decreases |log|
  {
    if n < |log| {
      HeardIsPrefix(log[..|log| - 1], n);
      assert log[..|log| - 1][..n] == log[..n];
    } else {
      assert log[..n] == log;
    }
  }

  // ---------------------------------------------------------------------------
  // Lines and kills.
  // ---------------------------------------------------------------------------

  /** The denial a line is, if it is one. */
  function DenialIn(line: Line): seq<string> {
    match line
    case Denied(host) => [host]
    case _ => []
  }

  lemma OneLine(run: Run)
    requires run.cursor < |run.hopState.log| && Following(run)
    ensures
      var run' := DeliverStep(run);
      && run'.cursor == run.cursor + 1 && run'.hopState == run.hopState
      && Delivered(run') == Delivered(run) + DenialIn(run.hopState.log[run.cursor])
  {
    var log, n := run.hopState.log, run.cursor;
    assert log[..n + 1] == log[..n] + [log[n]];
    DenialsSnoc(log[..n], log[n]);
    hide Denials;
  }

  /** A line that is handed on is handed on in its turn, and a denial is taken for what it is. */
  lemma LineIsDelivered(env: Env, plans: seq<Plan>, moves: seq<Move>, r: nat)
    requires r < |plans|
    ensures
      var run := RunAll(env, plans, moves).runs[r];
      var run' := RunAll(env, plans, moves + [Deliver(r)]).runs[r];
      run.cursor < |run.hopState.log| && Following(run) ==>
        && run'.cursor == run.cursor + 1 && run'.hopState == run.hopState
        && Delivered(run') == Delivered(run) + DenialIn(run.hopState.log[run.cursor])
  {
    RunsOn(env, plans, moves, Deliver(r));
    ReachedParts(env, plans, moves, r);
    hide RunAll, Ready, Shape, HopOk, Heard, Decided, DeliverStep, Delivered, Following;
    var run := RunAll(env, plans, moves).runs[r];
    if run.cursor < |run.hopState.log| && Following(run) {
      OneLine(run);
    }
  }

  lemma RunsOn(env: Env, plans: seq<Plan>, moves: seq<Move>, m: Move)
    ensures RunAll(env, plans, moves + [m]) == Step(env, RunAll(env, plans, moves), m)
  {
    assert (moves + [m])[..|moves|] == moves;
  }

  /** The sandbox has been started and has not stopped. */
  predicate Running(d: Daemon, run: Run) {
    && run.sandbox.Some? && run.sandbox.value < |d.containers|
    && d.containers[run.sandbox.value].started && d.containers[run.sandbox.value].exit == None
  }

  predicate KillsOnDenial(run: Run) {
    run.killing <==> run.denied.Some?
  }

  lemma {:induction false} KillingIsDenied(env: Env, plans: seq<Plan>, moves: seq<Move>, r: nat)
    requires r < |plans|
    ensures KillsOnDenial(RunAll(env, plans, moves).runs[r])
  {
    if moves != [] {
      var init := moves[..|moves| - 1];
      KillingIsDenied(env, plans, init, r);
      KillStep(env, RunAll(env, plans, init), Last(moves), r);
    }
  }

  lemma KillStep(env: Env, s: System, m: Move, r: nat)
    requires r < |s.runs| && KillsOnDenial(s.runs[r])
    ensures KillsOnDenial(Step(env, s, m).runs[r])
  {
    hide Ready, Attached, Taken, NetName, HopStep, Kill, Removed, NetworkRemoved;
  }

  /** The kill a delivered denial sends stops a running sandbox, and no such kill comes without a denial. */
  lemma KillLandsIff(env: Env, plans: seq<Plan>, moves: seq<Move>, r: nat)
    requires r < |plans| && Running(RunAll(env, plans, moves).daemon, RunAll(env, plans, moves).runs[r])
    ensures
      var s' := RunAll(env, plans, moves + [KillLands(r)]);
      Running(s'.daemon, s'.runs[r]) <==> Delivered(RunAll(env, plans, moves).runs[r]) == []
  {
    RunsOn(env, plans, moves, KillLands(r));
    KillingIsDenied(env, plans, moves, r);
    ReachedParts(env, plans, moves, r);
    hide RunAll, Denials, HopOk, Ready;
  }

  /** And a run whose time is up kills its sandbox before it reads the logs, unless the daemon does not do it. */
  lemma LateIsKilled(env: Env, plans: seq<Plan>, moves: seq<Move>, r: nat, reply: Reply)
    requires r < |plans| && RunAll(env, plans, moves).runs[r].pc == KillLate
    ensures
      var s, s' := RunAll(env, plans, moves), RunAll(env, plans, moves + [Call(r, reply)]);
      && s'.runs[r].pc == ReadLogs
      && (Running(s'.daemon, s'.runs[r]) <==> Running(s.daemon, s.runs[r]) && reply == Fails)
  {
    RunsOn(env, plans, moves, Call(r, reply));
    ReachedParts(env, plans, moves, r);
    hide RunAll, HopOk, Heard, Ready;
  }

  // ---------------------------------------------------------------------------
  // One outcome each.
  // ---------------------------------------------------------------------------

  /** Every run gets an outcome: it is decided exactly when teardown begins, and all of it once it is over. */
  lemma DecidedBeforeTeardown(env: Env, plans: seq<Plan>, moves: seq<Move>, r: nat)
    requires r < |plans|
    ensures
      var run := RunAll(env, plans, moves).runs[r];
      && (run.outcome.Some? <==> TearingDown(run))
      && (run.pc == Finished && run.sandbox.Some? && run.outcome != Some(Threw) ==>
            run.outcome == Some(Decide(run.denied, run.status)))
  {
    ReachedParts(env, plans, moves, r);
    hide RunAll, HopOk, Heard;
  }

  lemma StepKeepsOutcome(env: Env, s: System, m: Move, r: nat)
    requires r < |s.runs| && s.runs[r].outcome.Some? && TearingDown(s.runs[r])
    ensures
      var run' := Step(env, s, m).runs[r];
      run'.outcome == s.runs[r].outcome && TearingDown(run')
  {
    hide Ready, Removed, NetworkRemoved, Attached, Taken, Kill, NetName, HopStep;
  }

  /** Each run gets one outcome: once decided, it never changes. */
  lemma {:induction false} OutcomeIsFinal(env: Env, plans: seq<Plan>, moves: seq<Move>, n: nat, r: nat)
    requires r < |plans| && n <= |moves| && RunAll(env, plans, moves[..n]).runs[r].outcome.Some?
    ensures RunAll(env, plans, moves).runs[r].outcome == RunAll(env, plans, moves[..n]).runs[r].outcome
    decreases |moves|
  {
    hide Step, Permitted, Denials;
    if n == |moves| {
      assert moves[..n] == moves;
    } else {
      var before := moves[..|moves| - 1];
      assert before[..n] == moves[..n];
      OutcomeIsFinal(env, plans, before, n, r);
      RunKeeps(env, plans, before);
      var s := RunAll(env, plans, before);
      assert RunOk(env, s.daemon, r, s.runs[r]);
      StepKeepsOutcome(env, s, Last(moves), r);
    }
  }
}
