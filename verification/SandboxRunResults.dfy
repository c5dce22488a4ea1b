/** What every run of `apps/runner/src/run.ts` is promised, in every interleaving with every other. */
module SandboxRunResults {
  import opened Base
  import opened Authority
  import opened HopServer
  import opened SandboxRun
  import opened SandboxRunOutcomes

  // ---------------------------------------------------------------------------
  // The hop.
  // ---------------------------------------------------------------------------

  /**
   * A hop's tunnels go to hosts its sheet allows and to no forbidden address, and it announces at most one host,
   * which is not such a one.
   */
  lemma TunnelsArePermitted(env: Env, plans: seq<Plan>, moves: seq<Move>, r: nat)
    requires r < |plans|
    ensures
      var run := RunAll(env, plans, moves).runs[r];
      && (forall t | t in run.hopState.tunnels ::
            && !ForbiddenForm(t.host) && '[' !in t.host && ']' !in t.host
            && (env.policy(t.host, plans[r].allow) || env.policy("[" + t.host + "]", plans[r].allow)))
      && |Denials(run.hopState.log)| <= 1
      && (forall host | host in Denials(run.hopState.log) ::
            !env.policy(host, plans[r].allow) || ForbiddenForm(StripBrackets(host)))
  {
    RunKeeps(env, plans, moves);
    hide RunAll, Denials;
    var s := RunAll(env, plans, moves);
    assert RunOk(env, s.daemon, r, s.runs[r]);
    hide IsForbiddenAddress, ForbiddenForm, ParsedHost;
    var h := s.runs[r].hopState;
    forall t | t in h.tunnels
      ensures !ForbiddenForm(t.host) && '[' !in t.host && ']' !in t.host
      ensures env.policy(t.host, plans[r].allow) || env.policy("[" + t.host + "]", plans[r].allow)
    {
      var host :| Permitted(host, plans[r].allow, env.policy) && t.host == StripBrackets(host) && ParsedHost(host);
      ParsedForbiddenIff(host);
      StrippedIs(host);
    }
    if h.denied {
      ParsedForbiddenIff(Denials(h.log)[0]);
    }
  }

  lemma StepKeepsLatch(env: Env, s: System, m: Move, r: nat)
    requires r < |s.runs| && s.runs[r].hopState.denied
    ensures
      var h, h' := s.runs[r].hopState, Step(env, s, m).runs[r].hopState;
      h'.denied && h'.tunnels == h.tunnels
  {
    hide CallStep, Ready, ParseAuthority, Permitted;
    if m.who == r && Ready(s.daemon, s.runs[r]) && m.Call? {
      CallKeepsHop(env, s.daemon, r, s.runs[r], m.reply);
    }
  }

  lemma CallKeepsHop(env: Env, d: Daemon, r: nat, run: Run, reply: Reply)
    requires Ready(d, run)
    ensures CallStep(env, d, r, run, reply).1.hopState == run.hopState
  {
  }

  /** After its first denial a hop opens no tunnel ever again. */
  lemma {:induction false} NoTunnelAfterDenial(env: Env, plans: seq<Plan>, moves: seq<Move>, n: nat, r: nat)
    requires r < |plans| && n <= |moves| && RunAll(env, plans, moves[..n]).runs[r].hopState.denied
    ensures RunAll(env, plans, moves).runs[r].hopState.denied
    ensures RunAll(env, plans, moves).runs[r].hopState.tunnels ==
            RunAll(env, plans, moves[..n]).runs[r].hopState.tunnels
    decreases |moves|
  {
    hide Step;
    if n == |moves| {
      assert moves[..n] == moves;
    } else {
      var before := moves[..|moves| - 1];
      assert before[..n] == moves[..n];
      NoTunnelAfterDenial(env, plans, before, n, r);
      StepKeepsLatch(env, RunAll(env, plans, before), Last(moves), r);
    }
  }

  // ---------------------------------------------------------------------------
  // Teardown.
  // ---------------------------------------------------------------------------

  /** How many removals of one thing the daemon was asked for, by anybody. */
  function Count(attempts: seq<Attempt>, what: Thing): nat {
    if attempts == [] then 0
    else Count(attempts[..|attempts| - 1], what) + (if Last(attempts).what == what then 1 else 0)
  }

  function Occurs(things: seq<Thing>, what: Thing): nat {
    if things == [] then 0
    else Occurs(things[..|things| - 1], what) + (if Last(things) == what then 1 else 0)
  }

  lemma {:induction false} CountIsMine(d: Daemon, attempts: seq<Attempt>, what: Thing, r: nat)
    requires Whose(d, what, r) && forall a | a in attempts :: Whose(d, a.what, a.run)
    ensures Count(attempts, what) == Occurs(Mine(attempts, r), what)
  {
    if attempts != [] {
      var init, a := attempts[..|attempts| - 1], Last(attempts);
      assert forall b | b in init :: b in attempts;
      CountIsMine(d, init, what, r);
      assert Whose(d, a.what, a.run);
      if a.run == r {
        OccursSnoc(Mine(init, r), a.what, what);
      } else {
        assert Mine(attempts, r) == Mine(init, r);
      }
    }
  }

  lemma OccursSnoc(things: seq<Thing>, t: Thing, what: Thing)
    ensures Occurs(things + [t], what) == Occurs(things, what) + if t == what then 1 else 0
  {
    assert (things + [t])[..|things|] == things;
  }

  lemma NothingOccurs(what: Thing)
    ensures Occurs([], what) == 0
  {
  }

  /** Each of the three things is named once. */
  lemma EverythingOnce(run: Run, what: Thing)
    requires run.sandbox.Some? && run.sandbox != run.hop
    ensures Occurs(Everything(run), what) == if what in Everything(run) then 1 else 0
  {
    hide Occurs;
    var a := [ContainerThing(run.sandbox.value)];
    var ab := a + if run.hop.Some? then [ContainerThing(run.hop.value)] else [];
    NothingOccurs(what);
    OccursSnoc([], a[0], what);
    assert [] + a == a;
    assert a + [] == a && ab + [] == ab;
    if run.hop.Some? {
      OccursSnoc(a, ContainerThing(run.hop.value), what);
    }
    if run.network.Some? {
      OccursSnoc(ab, NetworkThing(run.network.value), what);
    }
  }

  /**
   * Whatever throws along the way, a run whose `build` succeeded asks, once it is over, for the removal of
   * its sandbox, then of its hop, then of its network, and of nothing else. Everything the daemon made for
   * it is among them, and each was asked for exactly once by anybody.
   */
  lemma TeardownIsExact(env: Env, plans: seq<Plan>, moves: seq<Move>, r: nat)
    requires r < |plans|
    ensures
      var s := RunAll(env, plans, moves);
      var run := s.runs[r];
      run.pc == Finished && run.sandbox.Some? ==>
        && Mine(s.daemon.attempts, r) == Everything(run)
        && (forall id | 0 <= id < |s.daemon.containers| && s.daemon.containers[id].run == r ::
              ContainerThing(id) in Everything(run) && Count(s.daemon.attempts, ContainerThing(id)) == 1)
        && (forall id | 0 <= id < |s.daemon.networks| && s.daemon.networks[id].run == r ::
              NetworkThing(id) in Everything(run) && Count(s.daemon.attempts, NetworkThing(id)) == 1)
  {
    RunKeeps(env, plans, moves);
    hide RunAll;
    var s := RunAll(env, plans, moves);
    var run := s.runs[r];
    if run.pc == Finished && run.sandbox.Some? {
      FinishedRun(env, s.daemon, r, run);
      forall id | 0 <= id < |s.daemon.containers| && s.daemon.containers[id].run == r
        ensures ContainerThing(id) in Everything(run) && Count(s.daemon.attempts, ContainerThing(id)) == 1
      {
        CountIsMine(s.daemon, s.daemon.attempts, ContainerThing(id), r);
        EverythingOnce(run, ContainerThing(id));
      }
      forall id | 0 <= id < |s.daemon.networks| && s.daemon.networks[id].run == r
        ensures NetworkThing(id) in Everything(run) && Count(s.daemon.attempts, NetworkThing(id)) == 1
      {
        CountIsMine(s.daemon, s.daemon.attempts, NetworkThing(id), r);
        EverythingOnce(run, NetworkThing(id));
      }
    }
  }

  lemma FinishedRun(env: Env, d: Daemon, r: nat, run: Run)
    requires RunOk(env, d, r, run) && run.pc == Finished && run.sandbox.Some?
    ensures Mine(d.attempts, r) == Everything(run) && run.sandbox != run.hop
    ensures forall id | 0 <= id < |d.containers| && d.containers[id].run == r :: ContainerThing(id) in Everything(run)
    ensures forall id | 0 <= id < |d.networks| && d.networks[id].run == r :: NetworkThing(id) in Everything(run)
  {
    hide HopOk, Heard, Gate, Nets, Clean, Mine;
  }

  // ---------------------------------------------------------------------------
  // What a run can reach, and when.
  // ---------------------------------------------------------------------------

  predicate DistinctIds(env: Env, plans: seq<Plan>) {
    && (forall i, j | 0 <= i < j < |plans| :: plans[i].runId != plans[j].runId)
    && (forall i | 0 <= i < |plans| :: NetName(plans[i].runId) != env.egressNet)
  }

  /**
   * No sandbox is ever on the egress network or on another run's; one without egress is on none; and one
   * with egress is never started before its own hop has said that it listens.
   */
  lemma SandboxesAreConfined(env: Env, plans: seq<Plan>, moves: seq<Move>, id: nat)
    requires DistinctIds(env, plans)
    requires id < |RunAll(env, plans, moves).daemon.containers|
    requires RunAll(env, plans, moves).daemon.containers[id].kind == Sandbox
    ensures
      var s := RunAll(env, plans, moves);
      var c := s.daemon.containers[id];
      && c.run < |plans| && env.egressNet !in c.nets
      && (forall other | 0 <= other < |plans| && other != c.run :: NetName(plans[other].runId) !in c.nets)
      && (!plans[c.run].egress ==> c.nets == {})
      && (plans[c.run].egress && c.started ==> s.runs[c.run].hopState.listening)
  {
    RunKeeps(env, plans, moves);
    hide RunAll;
    var s := RunAll(env, plans, moves);
    var c := s.daemon.containers[id];
    assert RunOk(env, s.daemon, c.run, s.runs[c.run]);
    hide HopOk, Heard, Mine, Clean, HoldsAll, Decided, NetName;
    forall other | 0 <= other < |plans| && other != c.run ensures NetName(plans[other].runId) !in c.nets {
      NamesDiffer(plans[other].runId, plans[c.run].runId);
    }
  }

  lemma NamesDiffer(a: string, b: string)
    ensures NetName(a) == NetName(b) ==> a == b
  {
    assert NetName(a)[15..] == a && NetName(b)[15..] == b;
  }

  /**
   * The order of the three removals is the one the daemon needs: once both containers' removals have worked,
   * nothing is attached to the run's network any more, so its removal is not refused.
   */
  lemma NetworkIsFreeByThen(env: Env, plans: seq<Plan>, moves: seq<Move>, r: nat)
    requires DistinctIds(env, plans) && r < |plans|
    ensures
      var s := RunAll(env, plans, moves);
      s.runs[r].pc == RemoveNet && s.runs[r].reports == 0 ==> !Attached(s.daemon, NetName(plans[r].runId))
  {
    RunKeeps(env, plans, moves);
    hide RunAll;
    var s := RunAll(env, plans, moves);
    var run := s.runs[r];
    assert RunOk(env, s.daemon, r, run);
    hide RunOk, NetName;
    if run.pc == RemoveNet && run.reports == 0 {
      forall c | c in s.daemon.containers && NetName(plans[r].runId) in c.nets ensures c.gone {
        var id :| 0 <= id < |s.daemon.containers| && s.daemon.containers[id] == c;
        AttachedAreOwn(env, plans, s, id, r);
        OwnAreGone(env, s.daemon, r, run, id);
      }
    }
  }

  lemma AttachedAreOwn(env: Env, plans: seq<Plan>, s: System, id: nat, r: nat)
    requires DistinctIds(env, plans) && Inv(env, plans, s) && r < |plans|
    requires id < |s.daemon.containers| && NetName(plans[r].runId) in s.daemon.containers[id].nets
    ensures s.daemon.containers[id].run == r
  {
    var c := s.daemon.containers[id];
    assert RunOk(env, s.daemon, c.run, s.runs[c.run]);
    NamesDiffer(plans[c.run].runId, plans[r].runId);
    hide HopOk, Heard, Mine, Decided, Gate, NetName, Clean, HoldsAll, Holds, Shape, Ledger;
  }

  lemma OwnAreGone(env: Env, d: Daemon, r: nat, run: Run, id: nat)
    requires RunOk(env, d, r, run) && run.pc == RemoveNet && run.reports == 0
    requires id < |d.containers| && d.containers[id].run == r
    ensures d.containers[id].gone
  {
    hide HopOk, Heard, Mine, Decided, Gate, NetName, Nets, Ledger;
  }

  /** A run that reported no failed removal has left nothing behind. */
  lemma NoSilentLeak(env: Env, plans: seq<Plan>, moves: seq<Move>, r: nat)
    requires r < |plans|
    ensures
      var s := RunAll(env, plans, moves);
      s.runs[r].pc == Finished && s.runs[r].sandbox.Some? && s.runs[r].reports == 0 ==>
        && (forall id | 0 <= id < |s.daemon.containers| && s.daemon.containers[id].run == r ::
              s.daemon.containers[id].gone)
        && (forall id | 0 <= id < |s.daemon.networks| && s.daemon.networks[id].run == r :: s.daemon.networks[id].gone)
  {
    RunKeeps(env, plans, moves);
    hide RunAll;
    var s := RunAll(env, plans, moves);
    assert RunOk(env, s.daemon, r, s.runs[r]);
    hide HopOk, Heard, Mine, Decided, Gate, NetName, Nets, Ledger;
  }

  /** A `build` that throws asks for its network's removal at most, so whatever container it made stays. */
  lemma FailedBuildRemovesNoContainer(env: Env, plans: seq<Plan>, moves: seq<Move>, r: nat)
    requires r < |plans|
    ensures
      var s := RunAll(env, plans, moves);
      var run := s.runs[r];
      run.pc == Finished && run.sandbox.None? ==>
        && run.outcome == Some(Threw)
        && Mine(s.daemon.attempts, r) == (if run.network.Some? then [NetworkThing(run.network.value)] else [])
        && (forall id | 0 <= id < |s.daemon.containers| && s.daemon.containers[id].run == r ::
              !s.daemon.containers[id].gone)
  {
    RunKeeps(env, plans, moves);
    hide RunAll;
    var s := RunAll(env, plans, moves);
    assert RunOk(env, s.daemon, r, s.runs[r]);
    hide HopOk, Heard, Mine, Decided, Gate, NetName, Nets, HoldsAll;
  }

  /** And where it made one, its network is not gone either: that container is still attached to it. */
  lemma FailedBuildLeavesItsNetwork(env: Env, plans: seq<Plan>, moves: seq<Move>, r: nat)
    requires r < |plans|
    ensures
      var s := RunAll(env, plans, moves);
      var run := s.runs[r];
      run.pc == Finished && run.sandbox.None? && run.network.Some? && Made(s.daemon, r) ==>
        run.network.value < |s.daemon.networks| && !s.daemon.networks[run.network.value].gone
  {
    RunKeeps(env, plans, moves);
    hide RunAll;
    var s := RunAll(env, plans, moves);
    assert RunOk(env, s.daemon, r, s.runs[r]);
    hide HopOk, Heard, Mine, Decided, Gate, NetName, Nets, HoldsAll;
  }

  /** This move is a removal of the run's teardown that throws. */
  predicate RemovalThrows(s: System, m: Move, r: nat) {
    && m.Call? && m.who == r && r < |s.runs|
    && match s.runs[r].pc
       case RemoveSandbox | RemoveHop => m.reply != Answers
       case RemoveNet => m.reply != Answers || Attached(s.daemon, NetName(s.runs[r].plan.runId))
       case _ => false
  }

  function RemovalsThrown(env: Env, plans: seq<Plan>, moves: seq<Move>, r: nat): nat {
    if moves == [] then 0
    else
      var init := moves[..|moves| - 1];
      RemovalsThrown(env, plans, init, r)
      + if RemovalThrows(RunAll(env, plans, init), Last(moves), r) then 1 else 0
  }

  lemma StepReports(env: Env, s: System, m: Move, r: nat)
    requires r < |s.runs| && Ready(s.daemon, s.runs[r])
    ensures Step(env, s, m).runs[r].reports == s.runs[r].reports + if RemovalThrows(s, m, r) then 1 else 0
  {
    hide Ready, Attached, Taken, NetName, HopStep, Kill, Removed, NetworkRemoved, Decide;
  }

  /** A failed removal is reported, and nothing else is: one report for each that threw. */
  lemma {:induction false} ReportsAreFailures(env: Env, plans: seq<Plan>, moves: seq<Move>, r: nat)
    requires r < |plans|
    ensures RunAll(env, plans, moves).runs[r].reports == RemovalsThrown(env, plans, moves, r)
  {
    hide Step, RemovalThrows;
    if moves != [] {
      var init := moves[..|moves| - 1];
      ReportsAreFailures(env, plans, init, r);
      ReachedParts(env, plans, init, r);
      StepReports(env, RunAll(env, plans, init), Last(moves), r);
    }
  }

  /** Nothing the daemon made for the run is left. */
  predicate LeavesNothing(d: Daemon, r: nat) {
    && (forall id | 0 <= id < |d.containers| && d.containers[id].run == r :: d.containers[id].gone)
    && (forall id | 0 <= id < |d.networks| && d.networks[id].run == r :: d.networks[id].gone)
  }

  /**
   * Exactly when a failed build cleans up after itself: its one call leaves nothing behind if and only if the
   * daemon carried the removal out and had made no container for the run.
   */
  lemma FailedBuildLeavesNothingIff(env: Env, plans: seq<Plan>, moves: seq<Move>, r: nat, reply: Reply)
    requires DistinctIds(env, plans) && r < |plans| && RunAll(env, plans, moves).runs[r].pc == DropNetwork
    ensures
      var d, d' := RunAll(env, plans, moves).daemon, RunAll(env, plans, moves + [Call(r, reply)]).daemon;
      LeavesNothing(d', r) <==> reply != Fails && !Made(d, r)
  {
    RunKeeps(env, plans, moves);
    RunKeeps(env, plans, moves + [Call(r, reply)]);
    RunsOn(env, plans, moves, Call(r, reply));
    hide RunAll;
    var s := RunAll(env, plans, moves);
    var run := s.runs[r];
    assert RunOk(env, s.daemon, r, run);
    DropStep(env, s, r, reply);
    if Made(s.daemon, r) {
      DropKeepsMade(env, s, r, reply);
    } else {
      NothingAttached(env, plans, s, r);
      DroppedNetwork(env, s.daemon, r, run, reply);
    }
  }

  /** The one call of a failed build's cleanup. */
  lemma DropStep(env: Env, s: System, r: nat, reply: Reply)
    requires r < |s.runs| && RunOk(env, s.daemon, r, s.runs[r]) && s.runs[r].pc == DropNetwork
    ensures Ready(s.daemon, s.runs[r])
    ensures Step(env, s, Call(r, reply)).daemon == CallStep(env, s.daemon, r, s.runs[r], reply).0
  {
    OkIsReady(env, s.daemon, r, s.runs[r]);
    hide RunOk, Ready, CallStep;
  }

  lemma DropKeepsMade(env: Env, s: System, r: nat, reply: Reply)
    requires r < |s.runs| && RunOk(env, s.daemon, r, s.runs[r]) && s.runs[r].pc == DropNetwork && Made(s.daemon, r)
    requires Ready(s.daemon, s.runs[r])
    ensures !LeavesNothing(CallStep(env, s.daemon, r, s.runs[r], reply).0, r)
  {
    var c :| c in s.daemon.containers && c.run == r;
    var id :| 0 <= id < |s.daemon.containers| && s.daemon.containers[id] == c;
    assert CallStep(env, s.daemon, r, s.runs[r], reply).0.containers == s.daemon.containers;
    hide HopOk, Heard, Decided, Gate, HoldsAll, Ledger, Mine, Due, Nets, CallStep;
  }

  lemma NothingAttached(env: Env, plans: seq<Plan>, s: System, r: nat)
    requires DistinctIds(env, plans) && Inv(env, plans, s) && r < |plans| && !Made(s.daemon, r)
    ensures !Attached(s.daemon, NetName(plans[r].runId))
  {
    hide RunOk, NetName;
    forall c | c in s.daemon.containers ensures c.gone || NetName(plans[r].runId) !in c.nets {
      var id :| 0 <= id < |s.daemon.containers| && s.daemon.containers[id] == c;
      if NetName(plans[r].runId) in c.nets {
        AttachedAreOwn(env, plans, s, id, r);
      }
    }
  }

  lemma DroppedNetwork(env: Env, d: Daemon, r: nat, run: Run, reply: Reply)
    requires RunOk(env, d, r, run) && Ready(d, run) && run.pc == DropNetwork && !Made(d, r)
    requires !Attached(d, NetName(run.plan.runId))
    ensures LeavesNothing(CallStep(env, d, r, run, reply).0, r) <==> reply != Fails
  {
    hide HopOk, Heard, Decided, Gate, HoldsAll, Ledger, Mine, Due, Nets, Attached, NetName, Clean;
    var d' := CallStep(env, d, r, run, reply).0;
    assert d'.containers == d.containers;
    forall id | 0 <= id < |d.containers| ensures d.containers[id].run != r {
      assert d.containers[id] in d.containers;
    }
  }

  // ---------------------------------------------------------------------------
  // Two runs that show what is not promised.
  // ---------------------------------------------------------------------------

  const NOBODY: Policy := (host, allow) => false

  /** From the start to a hop that listens and a runner that has heard it. */
  lemma Begun(env: Env, plan: Plan) returns (moves: seq<Move>)
    requires plan.egress
    ensures
      RunAll(env, [plan], moves) ==
        System(Daemon([Container(HopBox, 0, {NetName(plan.runId), env.egressNet}, true, None, false)],
                      [Network(NetName(plan.runId), 0, false)], []),
               [Run(plan, AwaitHop, Some(0), Some(0), None,
                    HopState(false, false, [], []), 0, None, false, None, None, 0)])
  {
    hide RunAll;
    moves := [];
    NoMoves(env, plan);
    moves := Then(env, plan, moves, Call(0, Answers));
    moves := Then(env, plan, moves, Call(0, Answers));
    moves := Then(env, plan, moves, Call(0, Answers));
    assert {NetName(plan.runId)} + {env.egressNet} == {NetName(plan.runId), env.egressNet};
    moves := Then(env, plan, moves, Call(0, Answers));
  }

  lemma NoMoves(env: Env, plan: Plan)
    ensures RunAll(env, [plan], []) == Start([plan])
  {
  }

  lemma Then(env: Env, plan: Plan, before: seq<Move>, m: Move) returns (moves: seq<Move>)
    ensures moves == before + [m]
    ensures RunAll(env, [plan], moves) == Step(env, RunAll(env, [plan], before), m)
  {
    moves := before + [m];
    assert moves[..|before|] == before;
  }

  /** A hop that never listens: the build throws, and the hop is left running on a network that stays. */
  lemma FailedBuildLeavesItsHop(env: Env, plan: Plan) returns (moves: seq<Move>)
    requires plan.egress
    ensures
      var s := RunAll(env, [plan], moves);
      && s.runs[0].pc == Finished
      && |s.daemon.containers| == 1 && s.daemon.containers[0].started && !s.daemon.containers[0].gone
      && |s.daemon.networks| == 1 && !s.daemon.networks[0].gone
  {
    moves := Begun(env, plan);
    hide RunAll;
    var s := RunAll(env, [plan], moves);
    moves := Then(env, plan, moves, Call(0, Fails));
    assert s.daemon.containers[0] in s.daemon.containers;
    moves := Then(env, plan, moves, Call(0, Answers));
  }

  /** A hop has denied its first host while the sandbox runs. */
  lemma Denying(plan: Plan, egressNet: string) returns (moves: seq<Move>)
    requires plan.egress
    ensures
      var s := RunAll(Env(egressNet, NOBODY), [plan], moves);
      var run := s.runs[0];
      && run.pc == Wait && run.hop.Some? && run.cursor == 0 && run.denied == None && run.outcome == None
      && run.hopState == HopState(true, true, [Listening, Denied("a")], [])
      && Running(s.daemon, run) && Ready(s.daemon, run)
  {
    var env := Env(egressNet, NOBODY);
    hide RunAll, OnConnect;
    moves := Serving(env, plan);
    moves := Then(env, plan, moves, HopConnect(0, "a:1"));
    NobodyConnects(plan.allow);
  }

  /** The line arrives before the sandbox has exited, and the result says `egress_denied`. */
  lemma DenialCanBeReported(plan: Plan, egressNet: string) returns (moves: seq<Move>)
    requires plan.egress
    ensures RunAll(Env(egressNet, NOBODY), [plan], moves).runs[0].outcome == Some(EgressDenied("a"))
  {
    var env := Env(egressNet, NOBODY);
    moves := Denying(plan, egressNet);
    hide RunAll, OnConnect, Attached, Taken, NetName;
    moves := Then(env, plan, moves, Deliver(0));
    moves := Then(env, plan, moves, Deliver(0));
    moves := Then(env, plan, moves, SandboxExits(0, 0));
    moves := Then(env, plan, moves, Call(0, Answers));
    moves := Then(env, plan, moves, Call(0, Answers));
  }

  /** A sandbox that exits before the line arrives: the hop denied, and the result says `completed`. */
  lemma DenialCanBeMissed(plan: Plan, egressNet: string) returns (moves: seq<Move>)
    requires plan.egress
    ensures
      var run := RunAll(Env(egressNet, NOBODY), [plan], moves).runs[0];
      run.hopState.denied && run.outcome == Some(Completed(0))
  {
    var env := Env(egressNet, NOBODY);
    moves := Denying(plan, egressNet);
    hide RunAll, OnConnect, Attached, Taken, NetName;
    moves := Then(env, plan, moves, SandboxExits(0, 0));
    moves := Then(env, plan, moves, Call(0, Answers));
    moves := Then(env, plan, moves, Call(0, Answers));
  }

  lemma NobodyConnects(allow: seq<string>)
    ensures OnConnect(FRESH, "a:1", allow, NOBODY).0 == HopState(true, true, [Listening, Denied("a")], [])
  {
    OneTarget();
    hide ParseAuthority, IsForbiddenAddress;
  }

  /** From the start to a started sandbox. */
  lemma Serving(env: Env, plan: Plan) returns (moves: seq<Move>)
    requires plan.egress
    ensures
      RunAll(env, [plan], moves) ==
        System(Daemon([Container(HopBox, 0, {NetName(plan.runId), env.egressNet}, true, None, false),
                       Container(Sandbox, 0, {NetName(plan.runId)}, true, None, false)],
                      [Network(NetName(plan.runId), 0, false)], []),
               [Run(plan, Wait, Some(0), Some(0), Some(1), FRESH, 0, None, false, None, None, 0)])
  {
    moves := Begun(env, plan);
    hide RunAll;
    moves := Then(env, plan, moves, HopListens(0));
    moves := Then(env, plan, moves, Deliver(0));
    moves := Then(env, plan, moves, Call(0, Answers));
    assert RunAll(env, [plan], moves).daemon.containers ==
           [Container(HopBox, 0, {NetName(plan.runId), env.egressNet}, true, None, false),
            Container(Sandbox, 0, {NetName(plan.runId)}, false, None, false)];
    moves := Then(env, plan, moves, Call(0, Answers));
    assert RunAll(env, [plan], moves).runs[0] ==
           Run(plan, Wait, Some(0), Some(0), Some(1), FRESH, 0, None, false, None, None, 0);
  }

  lemma OneTarget()
    ensures ParseAuthority("a:1") == Some(Target("a", 1))
  {
    SpelledParses("a:1", Target("a", 1), "1");
  }
}
