/**
 * `build`, `runInSandbox` and `teardown` of `apps/runner/src/run.ts` as one process runs them, proved to be
 * runs of the step machine whatever the rest of the world does between two of their calls.
 */
module SandboxRunCalls {
  import opened Base
  import opened HopServer
  import opened SandboxRun
  import opened SandboxRunOutcomes

  /** The world may do anything while this run waits, except make this run's own calls. */
  predicate Foreign(me: nat, m: Move) {
    m.Call? ==> m.who != me
  }

  /** While a run waits, its program counter stays, unless the hop's line is what it waits for. */
  lemma ForeignKeeps(env: Env, plans: seq<Plan>, s: System, me: nat, m: Move)
    requires Inv(env, plans, s) && me < |plans| && Foreign(me, m)
    ensures
      var run, run' := s.runs[me], Step(env, s, m).runs[me];
      && (run'.pc == run.pc || (run.pc == AwaitHop && run'.pc == CreateSandbox))
      && run'.outcome == run.outcome && run'.status == run.status
      && run'.sandbox == run.sandbox && run'.hop == run.hop && run'.network == run.network && run'.plan == run.plan
  {
    hide RunOk, Ready;
    if m.who == me && m.who < |s.runs| && Ready(s.daemon, s.runs[me]) {
      EffectWaits(env, s.daemon, me, s.runs[me], m);
    }
    hide Effect;
  }

  lemma EffectWaits(env: Env, d: Daemon, me: nat, run: Run, m: Move)
    requires Ready(d, run) && !m.Call?
    ensures
      var run' := Effect(env, d, me, run, m).1;
      && (run'.pc == run.pc || (run.pc == AwaitHop && run'.pc == CreateSandbox))
      && run'.outcome == run.outcome && run'.status == run.status
      && run'.sandbox == run.sandbox && run'.hop == run.hop && run'.network == run.network && run'.plan == run.plan
  {
    hide Ready, CallStep, OnConnect, Kill, HopStep, Change;
  }

  /** One call of the run itself. */
  lemma CallIs(env: Env, plans: seq<Plan>, s: System, me: nat, reply: Reply)
    requires Inv(env, plans, s) && me < |plans|
    ensures |s.runs| == |plans| && Ready(s.daemon, s.runs[me])
    ensures Step(env, s, Call(me, reply)).runs[me] == CallStep(env, s.daemon, me, s.runs[me], reply).1
  {
    hide RunOk;
    assert RunOk(env, s.daemon, me, s.runs[me]);
    OkIsReady(env, s.daemon, me, s.runs[me]);
    hide Ready, CallStep;
  }

  /** Until `build` has returned there is no sandbox. */
  predicate Building(run: Run) {
    match run.pc
    case CreateNetwork | CreatePlain => run.sandbox.None? && run.network.None?
    case CreateHop | ConnectHop | StartHop | AwaitHop | CreateSandbox | DropNetwork => run.sandbox.None?
    case _ => true
  }

  /** A timer of the run's own, and no call. */
  predicate Waiting(run: Run, reply: Reply) {
    run.pc == AwaitHop || (run.pc == Wait && reply == Loses)
  }

  /** Where `teardown` goes after a removal, whether or not it worked. */
  function AfterRemoval(run: Run): Pc {
    if run.pc == RemoveSandbox && run.hop.Some? then RemoveHop
    else if run.pc != RemoveNet && run.network.Some? then RemoveNet
    else Finished
  }

  class Runner {
    const env: Env
    ghost const plans: seq<Plan>
    const me: nat
    /** What everybody else does before each of this run's calls, and how the daemon answers it. */
    const world: nat -> seq<Move>
    const answers: nat -> Reply
    var s: System
    var calls: nat
    ghost var moves: seq<Move>

    ghost predicate Reached()
      reads this
    {
      && me < |plans| && |s.runs| == |plans| && s == RunAll(env, plans, moves)
      && (AllAnswered() ==> FirstSnag(env, plans, moves, me) != Unanswered)
    }

    /** The daemon answers every call of this run. */
    ghost predicate AllAnswered() {
      forall n :: answers(n) == Answers
    }

    function Mine(): Run
      requires me < |s.runs|
      reads this
    {
      s.runs[me]
    }

    /** The removals this run has asked the daemon for, in order. */
    function Asked(): seq<Thing>
      reads this
    {
      SandboxRun.Mine(s.daemon.attempts, me)
    }

    /** What has been asked for is what was due. */
    lemma AskedIsDue()
      requires Reached()
      ensures Asked() == Due(Mine()) && Building(Mine())
      ensures Mine().pc == RemoveSandbox ==> Mine().sandbox.Some?
    {
      RunKeeps(env, plans, moves);
      hide RunAll;
      assert RunOk(env, s.daemon, me, s.runs[me]);
      hide HopOk, Heard, Decided, Gate, HoldsAll, Nets, Clean, NetKept, Due, SandboxRun.Mine;
    }

    constructor (env: Env, plans: seq<Plan>, me: nat, world: nat -> seq<Move>, answers: nat -> Reply)
      requires me < |plans|
      ensures Reached() && moves == [] && this.plans == plans && this.me == me
      ensures Mine().outcome == None && Mine().status == None
      ensures Mine().plan == plans[me] && Mine().pc == if plans[me].egress then CreateNetwork else CreatePlain
    {
      this.env, this.plans, this.me, this.world, this.answers := env, plans, me, world, answers;
      s, calls, moves := Start(plans), 0, [];
    }

    /** One move of the world. */
    method Take(m: Move)
      requires Reached() && (AllAnswered() ==> SnagAt(env, s, m, me) != Unanswered)
      modifies this
      ensures Reached() && s == Step(env, old(s), m) && calls == old(calls)
    {
      ghost var moves' := moves + [m];
      assert moves'[..|moves|] == moves;
      s := Step(env, s, m);
      moves := moves';
    }

    /** An `await`: everybody else goes on. */
    method Await()
      requires Reached()
      modifies this
      ensures Reached() && calls == old(calls) + 1
      ensures Mine().pc == old(Mine().pc) || (old(Mine().pc) == AwaitHop && Mine().pc == CreateSandbox)
      ensures Mine().outcome == old(Mine().outcome) && Mine().status == old(Mine().status)
      ensures Mine().sandbox == old(Mine().sandbox) && Mine().hop == old(Mine().hop)
      ensures Mine().network == old(Mine().network) && Mine().plan == old(Mine().plan)
    {
      hide Step;
      var others := world(calls);
      calls := calls + 1;
      ghost var mine, now := Mine(), calls;
      for i := 0 to |others|
        invariant Reached() && calls == now
        invariant Mine().pc == mine.pc || (mine.pc == AwaitHop && Mine().pc == CreateSandbox)
        invariant Mine().outcome == mine.outcome && Mine().status == mine.status
        invariant Mine().sandbox == mine.sandbox && Mine().hop == mine.hop
        invariant Mine().network == mine.network && Mine().plan == mine.plan
      {
        if Foreign(me, others[i]) {
          RunKeeps(env, plans, moves);
          ForeignKeeps(env, plans, s, me, others[i]);
          Take(others[i]);
        }
      }
    }

    /** One daemon call: whether it returned, and the run as it was when it was made. */
    method Docker(reply: Reply) returns (ghost at: Run, ghost d: Daemon)
      requires Reached() && (AllAnswered() ==> reply == Answers || Waiting(Mine(), reply))
      modifies this
      ensures Reached() && at == old(Mine()) && d == old(s.daemon)
      ensures Ready(d, at) && Mine() == CallStep(env, d, me, at, reply).1
    {
      hide Step, CallStep, Ready;
      RunKeeps(env, plans, moves);
      at, d := Mine(), s.daemon;
      CallIs(env, plans, s, me, reply);
      Take(Call(me, reply));
    }

    method Attempt() returns (reply: Reply, ghost at: Run, ghost d: Daemon)
      requires Reached() && Mine().pc != AwaitHop
      modifies this
      ensures Reached() && Ready(d, at) && Mine() == CallStep(env, d, me, at, reply).1
      ensures at.pc == old(Mine().pc) && at.outcome == old(Mine().outcome) && at.status == old(Mine().status)
      ensures at.sandbox == old(Mine().sandbox) && at.hop == old(Mine().hop)
      ensures at.network == old(Mine().network) && at.plan == old(Mine().plan)
    {
      hide CallStep, Ready;
      Await();
      reply := answers(calls);
      at, d := Docker(reply);
    }

    /** `build`, and what it leaves when it throws. */
    method Build() returns (built: bool)
      requires Reached() && Mine().pc == (if Mine().plan.egress then CreateNetwork else CreatePlain)
      requires Mine().outcome == None && Mine().status == None
      modifies this
      ensures Reached() && Mine().plan == old(Mine().plan)
      ensures built ==> Mine().pc == StartSandbox && Mine().outcome == None && Mine().status == None
      ensures !built ==> Mine().pc == Finished && Mine().outcome == Some(Threw) && Mine().sandbox == None
      ensures !built ==> Asked() == if Mine().network.Some? then [NetworkThing(Mine().network.value)] else []
    {
      built := FirstCall();
      if !built || !Mine().plan.egress { return; }
      // try
      built := BuildInNetwork();
      if !built {
        UndoNetwork();
      }
    }

    /** The call outside the `try`: the sandbox of a plain run, the network of any other. */
    method FirstCall() returns (worked: bool)
      requires Reached() && Mine().pc == (if Mine().plan.egress then CreateNetwork else CreatePlain)
      requires Mine().outcome == None && Mine().status == None
      modifies this
      ensures Reached() && Mine().plan == old(Mine().plan)
      ensures worked ==> Mine().pc == (if Mine().plan.egress then CreateHop else StartSandbox)
      ensures worked ==> Mine().outcome == None && Mine().status == None
      ensures !worked ==> Mine().pc == Finished && Mine().outcome == Some(Threw) && Mine().sandbox == None
      ensures !worked ==> Mine().network == None && Asked() == []
    {
      hide Attached, Taken, Ready, NetName;
      AskedIsDue();
      var reply;
      ghost var at, d;
      reply, at, d := Attempt();
      AskedIsDue();
      worked := Mine().pc != Finished;
    }

    /** The network of a failed build is removed, whether or not that works. */
    method UndoNetwork()
      requires Reached() && Mine().pc == DropNetwork
      modifies this
      ensures Reached() && Mine().plan == old(Mine().plan)
      ensures Mine().pc == Finished && Mine().outcome == Some(Threw) && Mine().sandbox == None
      ensures Mine().network.Some? && Asked() == [NetworkThing(Mine().network.value)]
    {
      hide Attached, Taken, NetName;
      AskedIsDue();
      var reply;
      ghost var at, d;
      reply, at, d := Attempt();
      AskedIsDue();
    }

    method BuildInNetwork() returns (built: bool)
      requires Reached() && Mine().pc == CreateHop && Mine().outcome == None && Mine().status == None
      modifies this
      ensures Reached() && Mine().plan == old(Mine().plan) && Mine().outcome == None && Mine().status == None
      ensures Mine().pc == if built then StartSandbox else DropNetwork
    {
      hide Attached, Taken, Ready, NetName;
      ghost var at, d;
      var reply;
      built := false;
      reply, at, d := Attempt();
      if reply != Answers { return; }
      reply, at, d := Attempt();
      if reply != Answers { return; }
      reply, at, d := Attempt();
      if reply != Answers { return; }
      var heard := WaitForHop();
      if !heard { return; }
      reply, at, d := Attempt();
      built := reply == Answers;
    }

    /** `waitForHop`: until its line arrives or the timer fires. */
    method WaitForHop() returns (heard: bool)
      requires Reached() && Mine().pc == AwaitHop && Mine().outcome == None && Mine().status == None
      modifies this
      ensures Reached() && Mine().plan == old(Mine().plan) && Mine().outcome == None && Mine().status == None
      ensures Mine().pc == if heard then CreateSandbox else DropNetwork
    {
      Await();
      heard := Mine().pc == CreateSandbox;
      if !heard {
        ghost var at, d := Docker(Fails);
      }
    }

    /** `wait`: a status when the sandbox has exited, null when the time is up; `None` is a throw. */
    method WaitForSandbox() returns (status: Option<Option<int>>)
      requires Reached() && Mine().pc == Wait && Mine().outcome == None && Mine().status == None
      modifies this
      ensures Reached()
      ensures status == None ==> Mine().pc == RemoveSandbox && Mine().outcome == Some(Threw)
      ensures status == Some(None) ==> Mine().pc == KillLate && Mine().status == None && Mine().outcome == None
      ensures status.Some? && status.value.Some? ==>
                Mine().pc == ReadLogs && Mine().status == status.value && Mine().outcome == None
    {
      Await();
      var reply := answers(calls);
      RunKeeps(env, plans, moves);
      CallIs(env, plans, s, me, reply);
      var exit := s.daemon.containers[Mine().sandbox.value].exit;
      if reply == Answers && exit == None {
        reply := Loses;
      }
      ghost var at, d := Docker(reply);
      match reply {
        case Fails => status := None;
        case Loses => status := Some(None);
        case Answers => status := Some(exit);
      }
    }

    /** One removal of `teardown`; a throw is reported and not passed on. */
    method RemoveNext()
      requires Reached() && Mine().outcome.Some?
      requires Mine().pc == RemoveSandbox || Mine().pc == RemoveHop || Mine().pc == RemoveNet
      modifies this
      ensures Reached() && Mine().outcome == old(Mine().outcome) && Mine().sandbox == old(Mine().sandbox)
      ensures Mine().hop == old(Mine().hop) && Mine().network == old(Mine().network)
      ensures Mine().pc == AfterRemoval(old(Mine()))
    {
      hide Attached, Taken, NetName, SandboxRun.Mine, Ready;
      var reply;
      ghost var at, d;
      reply, at, d := Attempt();
    }

    /** `teardown`: three removals, none of which stops the next. */
    method Teardown()
      requires Reached() && Mine().pc == RemoveSandbox && Mine().outcome.Some?
      modifies this
      ensures Reached() && Mine().pc == Finished && Mine().outcome == old(Mine().outcome)
      ensures Mine().sandbox.Some? && Asked() == Everything(Mine())
    {
      hide SandboxRun.Mine;
      AskedIsDue();
      RemoveNext();
      if Mine().pc == RemoveHop {
        RemoveNext();
      }
      if Mine().pc == RemoveNet {
        RemoveNext();
      }
      AskedIsDue();
    }

    /**
     * `runInSandbox`: whatever the daemon and the world do, it ends with everything torn down or its build
     * undone, and what it answers is the outcome the step machine decides.
     */
    method RunInSandbox() returns (outcome: Outcome)
      requires Reached() && Mine().pc == (if Mine().plan.egress then CreateNetwork else CreatePlain)
      requires Mine().outcome == None && Mine().status == None
      modifies this
      ensures Reached() && Mine().pc == Finished && Mine().outcome == Some(outcome)
      // Which outcome that is.
      ensures outcome == AnswerOf(env, plans, moves, me)
      ensures AllAnswered() && outcome == Threw ==> FirstSnag(env, plans, moves, me) in {NameTaken, NeverListened}
      ensures Asked() == if Mine().sandbox.Some? then Everything(Mine())
                         else if Mine().network.Some? then [NetworkThing(Mine().network.value)] else []
    {
      hide Attached, Taken, NetName, Ready;
      var built := Build();
      if !built {
        OutcomeIs(env, plans, moves, me);
        return Threw;
      }
      // try
      outcome := FollowedRun();
      // finally
      Teardown();
      OutcomeIs(env, plans, moves, me);
      hide Everything;
    }

    method FollowedRun() returns (outcome: Outcome)
      requires Reached() && Mine().pc == StartSandbox && Mine().outcome == None && Mine().status == None
      modifies this
      ensures Reached() && Mine().pc == RemoveSandbox && Mine().outcome == Some(outcome)
    {
      hide Attached, Taken, NetName, Ready;
      ghost var at, d;
      var reply;
      reply, at, d := Attempt();
      if reply != Answers { return Threw; }
      var status := WaitForSandbox();
      if status == None { return Threw; }
      if status.value == None {
        reply, at, d := Attempt();
      }
      reply, at, d := Attempt();
      if reply != Answers { return Threw; }
      // A denial before a timeout: a killed sandbox reports no status either.
      if Mine().denied.Some? { return EgressDenied(Mine().denied.value); }
      if status.value == None { return TimedOut; }
      outcome := Completed(status.value.value);
    }
  }
}
