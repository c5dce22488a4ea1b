/**
 * `apps/runner/src/run.ts`: any number of sandbox runs against one Docker daemon.
 *
 * One step is one daemon call of one run, one event in a sandbox or a hop, or the delivery of one line
 * of a hop's log to the runner that follows it. Every call may fail, before or after it took effect.
 */
module SandboxRun {
  import opened Base
  import opened Authority
  import opened HopServer

  datatype Kind = Sandbox | HopBox

  /** `run` is a history: whose `create` this was. No step reads it. */
  datatype Container = Container(kind: Kind, run: nat, nets: set<string>, started: bool, exit: Option<int>, gone: bool)

  datatype Network = Network(name: string, run: nat, gone: bool)

  datatype Thing = ContainerThing(id: nat) | NetworkThing(id: nat)

  /** One `remove` or `removeNetwork` sent to the daemon; `run` is a history. */
  datatype Attempt = Attempt(run: nat, what: Thing)

  datatype Outcome = EgressDenied(host: string) | TimedOut | Completed(code: int) | Threw

  datatype Pc =
    | CreateNetwork
    | CreateHop
    | ConnectHop
    | StartHop
    | AwaitHop
    | CreateSandbox
    | CreatePlain
    | StartSandbox
    | Wait
    | KillLate
    | ReadLogs
    | RemoveSandbox
    | RemoveHop
    | RemoveNet
    | DropNetwork
    | Finished

  /** `egress`: the sheet grants hosts and the deployment has a hop to enforce the grant. */
  datatype Plan = Plan(runId: string, egress: bool, allow: seq<string>)

  datatype Run = Run(
    plan: Plan, pc: Pc,
    network: Option<nat>, hop: Option<nat>, sandbox: Option<nat>,
    hopState: HopState, cursor: nat, denied: Option<string>, killing: bool,
    status: Option<int>, outcome: Option<Outcome>, reports: nat)

  datatype Daemon = Daemon(containers: seq<Container>, networks: seq<Network>, attempts: seq<Attempt>)

  datatype System = System(daemon: Daemon, runs: seq<Run>)

  /** The deployment: its egress network and the matcher of host patterns. */
  datatype Env = Env(egressNet: string, policy: Policy)

  /** `Loses`: the daemon did it and the answer never came. */
  datatype Reply = Answers | Fails | Loses

  datatype Move =
    | Call(who: nat, reply: Reply)
    | Deliver(who: nat)
    | KillLands(who: nat)
    | SandboxExits(who: nat, code: int)
    | HopListens(who: nat)
    | HopConnect(who: nat, target: string)
    | HopPrints(who: nat)

  function NetName(runId: string): string {
    "libero-sandbox-" + runId
  }

  // ---------------------------------------------------------------------------
  // The daemon.
  // ---------------------------------------------------------------------------

  function AddContainer(d: Daemon, kind: Kind, r: nat, nets: set<string>): Daemon {
    d.(containers := d.containers + [Container(kind, r, nets, false, None, false)])
  }

  function Change(d: Daemon, id: nat, c: Container): Daemon
    requires id < |d.containers|
  {
    d.(containers := d.containers[id := c])
  }

  function Kill(d: Daemon, id: nat): Daemon
    requires id < |d.containers|
  {
    var c := d.containers[id];
    if c.started && c.exit == None then Change(d, id, c.(exit := Some(137))) else d
  }

  /** Something still there is attached to the network of that name. */
  predicate Attached(d: Daemon, name: string) {
    exists c | c in d.containers :: !c.gone && name in c.nets
  }

  predicate Taken(d: Daemon, name: string) {
    exists n | n in d.networks :: !n.gone && n.name == name
  }

  // ---------------------------------------------------------------------------
  // The runner's calls.
  // ---------------------------------------------------------------------------

  /** `line` of the hop's log as `deniedHostOf` reads it. */
  function DeniedHostOf(line: Line): Option<string> {
    match line case Denied(host) => Some(host) case _ => None
  }

  /** What the result says, once the logs are read: a denial before a timeout, and a status otherwise. */
  function Decide(denied: Option<string>, status: Option<int>): Outcome {
    match denied
    case Some(host) => EgressDenied(host)
    case None => match status case None => TimedOut case Some(code) => Completed(code)
  }

  /** Ids the program counter's next call uses. */
  predicate Ready(d: Daemon, run: Run) {
    && (run.network.Some? ==> run.network.value < |d.networks|)
    && (run.hop.Some? ==> run.hop.value < |d.containers|)
    && (run.sandbox.Some? ==> run.sandbox.value < |d.containers|)
    && (match run.pc
        case ConnectHop | StartHop | RemoveHop => run.hop.Some?
        case StartSandbox | Wait | KillLate | RemoveSandbox => run.sandbox.Some?
        case RemoveNet | DropNetwork => run.network.Some?
        case _ => true)
  }

  function Removed(d: Daemon, r: nat, id: nat, took: bool): Daemon
    requires id < |d.containers|
  {
    var d' := d.(attempts := d.attempts + [Attempt(r, ContainerThing(id))]);
    if took then Change(d', id, d.containers[id].(gone := true)) else d'
  }

  function NetworkRemoved(d: Daemon, r: nat, id: nat, took: bool): Daemon
    requires id < |d.networks|
  {
    var d' := d.(attempts := d.attempts + [Attempt(r, NetworkThing(id))]);
    if took then d'.(networks := d.networks[id := d.networks[id].(gone := true)]) else d'
  }

  /** The next daemon call of `build`, `runInSandbox` or `teardown`. */
  function CallStep(env: Env, d: Daemon, r: nat, run: Run, reply: Reply): (Daemon, Run)
    requires Ready(d, run)
  {
    var ok, took := reply == Answers, reply != Fails;
    var name := NetName(run.plan.runId);
    match run.pc
    case CreateNetwork =>
      // The daemon refuses a duplicate name.
      var free := !Taken(d, name);
      (if took && free then d.(networks := d.networks + [Network(name, r, false)]) else d,
       if ok && free then run.(network := Some(|d.networks|), pc := CreateHop)
       else run.(outcome := Some(Threw), pc := Finished))
    case CreateHop =>
      (if took then AddContainer(d, HopBox, r, {name}) else d,
       if ok then run.(hop := Some(|d.containers|), pc := ConnectHop) else run.(pc := DropNetwork))
    case ConnectHop =>
      var hop := d.containers[run.hop.value];
      (if took then Change(d, run.hop.value, hop.(nets := hop.nets + {env.egressNet})) else d,
       run.(pc := if ok then StartHop else DropNetwork))
    case StartHop =>
      (if took then Change(d, run.hop.value, d.containers[run.hop.value].(started := true)) else d,
       run.(pc := if ok then AwaitHop else DropNetwork))
    case AwaitHop =>
      // The only call here is the timer; the way on is a delivered line.
      (d, if ok then run else run.(pc := DropNetwork))
    case CreateSandbox =>
      (if took then AddContainer(d, Sandbox, r, {name}) else d,
       if ok then run.(sandbox := Some(|d.containers|), pc := StartSandbox, cursor := 0) else run.(pc := DropNetwork))
    case CreatePlain =>
      (if took then AddContainer(d, Sandbox, r, {}) else d,
       if ok then run.(sandbox := Some(|d.containers|), pc := StartSandbox, cursor := 0)
       else run.(outcome := Some(Threw), pc := Finished))
    case StartSandbox =>
      (if took then Change(d, run.sandbox.value, d.containers[run.sandbox.value].(started := true)) else d,
       if ok then run.(pc := Wait) else run.(outcome := Some(Threw), pc := RemoveSandbox))
    case Wait =>
      (d,
       match reply
       case Answers =>
         // The daemon holds the request open until the container exits.
         var exit := d.containers[run.sandbox.value].exit;
         if exit.Some? then run.(status := exit, pc := ReadLogs) else run
       case Loses => run.(status := None, pc := KillLate)
       case Fails => run.(outcome := Some(Threw), pc := RemoveSandbox))
    case KillLate => (if took then Kill(d, run.sandbox.value) else d, run.(pc := ReadLogs))
    case ReadLogs =>
      (d, run.(outcome := Some(if ok then Decide(run.denied, run.status) else Threw), pc := RemoveSandbox))
    case RemoveSandbox =>
      (Removed(d, r, run.sandbox.value, took),
       run.(pc := if run.hop.Some? then RemoveHop else if run.network.Some? then RemoveNet else Finished,
            reports := run.reports + if ok then 0 else 1))
    case RemoveHop =>
      (Removed(d, r, run.hop.value, took),
       run.(pc := if run.network.Some? then RemoveNet else Finished, reports := run.reports + if ok then 0 else 1))
    case RemoveNet =>
      // The daemon refuses to remove a network something is attached to.
      var free := !Attached(d, name);
      (NetworkRemoved(d, r, run.network.value, took && free),
       run.(pc := Finished, reports := run.reports + if ok && free then 0 else 1))
    case DropNetwork =>
      (NetworkRemoved(d, r, run.network.value, took && !Attached(d, name)),
       run.(outcome := Some(Threw), pc := Finished))
    case Finished => (d, run)
  }

  // ---------------------------------------------------------------------------
  // Everything else that happens.
  // ---------------------------------------------------------------------------

  /** The runner is following the hop's log for denials: from the end of `build` to the `finally`. */
  predicate Following(run: Run) {
    run.hop.Some? && (run.pc == StartSandbox || run.pc == Wait || run.pc == KillLate || run.pc == ReadLogs)
  }

  /** One line of the hop's log reaches whoever follows it. */
  function DeliverStep(run: Run): Run {
    if run.cursor >= |run.hopState.log| then run
    else
      var line := run.hopState.log[run.cursor];
      if run.pc == AwaitHop then
        if line == Listening then run.(cursor := run.cursor + 1, pc := CreateSandbox)
        else run.(cursor := run.cursor + 1)
      else if Following(run) then
        if run.denied.None? && DeniedHostOf(line).Some? then
          run.(cursor := run.cursor + 1, denied := DeniedHostOf(line), killing := true)
        else run.(cursor := run.cursor + 1)
      else run
  }

  predicate HopStarted(d: Daemon, run: Run) {
    run.hop.Some? && run.hop.value < |d.containers| && d.containers[run.hop.value].started
  }

  function HopStep(env: Env, run: Run, m: Move): HopState {
    match m
    case HopListens(_) => OnListen(run.hopState)
    case HopConnect(_, target) =>
      if run.hopState.listening then OnConnect(run.hopState, target, run.plan.allow, env.policy).0 else run.hopState
    case HopPrints(_) => run.hopState.(log := run.hopState.log + [Other])
    case _ => run.hopState
  }

  /** What one move does to the daemon and to the run it names. */
  function Effect(env: Env, d: Daemon, r: nat, run: Run, m: Move): (Daemon, Run)
    requires Ready(d, run)
  {
    match m
    case Call(_, reply) => CallStep(env, d, r, run, reply)
    case Deliver(_) => (d, DeliverStep(run))
    case KillLands(_) => (if run.killing && run.sandbox.Some? then Kill(d, run.sandbox.value) else d, run)
    case SandboxExits(_, code) =>
      if
        && run.sandbox.Some? && d.containers[run.sandbox.value].started
        && d.containers[run.sandbox.value].exit == None
      then
        (Change(d, run.sandbox.value, d.containers[run.sandbox.value].(exit := Some(code))), run)
      else (d, run)
    case HopListens(_) | HopConnect(_, _) | HopPrints(_) =>
      (d, if HopStarted(d, run) then run.(hopState := HopStep(env, run, m)) else run)
  }

  // ---------------------------------------------------------------------------
  // What holds of one run at all times.
  // ---------------------------------------------------------------------------

  predicate TearingDown(run: Run) {
    run.pc == RemoveSandbox || run.pc == RemoveHop || run.pc == RemoveNet || run.pc == Finished
  }

  predicate Shape(run: Run) {
    && (run.outcome.Some? <==> TearingDown(run))
    && match run.pc
       case CreateNetwork => run.plan.egress && run.network.None? && run.hop.None? && run.sandbox.None?
       case CreatePlain => !run.plan.egress && run.network.None? && run.hop.None? && run.sandbox.None?
       case CreateHop => run.plan.egress && run.network.Some? && run.hop.None? && run.sandbox.None?
       case ConnectHop | StartHop | AwaitHop | CreateSandbox =>
         run.plan.egress && run.network.Some? && run.hop.Some? && run.sandbox.None?
       case StartSandbox | Wait | KillLate | ReadLogs | RemoveSandbox =>
         run.sandbox.Some? && (run.hop.Some? <==> run.plan.egress) && (run.network.Some? <==> run.plan.egress)
       case RemoveHop | RemoveNet => run.plan.egress && run.network.Some? && run.hop.Some? && run.sandbox.Some?
       case DropNetwork => run.plan.egress && run.network.Some? && run.sandbox.None?
       case Finished =>
         if run.sandbox.Some? then (run.hop.Some? <==> run.plan.egress) && (run.network.Some? <==> run.plan.egress)
         else run.outcome == Some(Threw)
  }

  /** The ids the run holds are its own. */
  predicate Holds(d: Daemon, r: nat, run: Run) {
    && (run.network.Some? ==> run.network.value < |d.networks| && d.networks[run.network.value].run == r)
    && (run.hop.Some? ==> run.hop.value < |d.containers| && d.containers[run.hop.value].run == r
                          && d.containers[run.hop.value].kind == HopBox)
    && (run.sandbox.Some? ==> run.sandbox.value < |d.containers| && d.containers[run.sandbox.value].run == r
                              && d.containers[run.sandbox.value].kind == Sandbox)
  }

  predicate BuildFailed(run: Run) {
    run.sandbox.None? && (run.pc == DropNetwork || run.pc == Finished)
  }

  /** And everything the daemon made for it is among them, unless `build` threw. */
  predicate HoldsAll(d: Daemon, r: nat, run: Run) {
    !BuildFailed(run) ==> EveryContainer(d, r, run) && EveryNetwork(d, r, run)
  }

  predicate EveryContainer(d: Daemon, r: nat, run: Run) {
    forall id | 0 <= id < |d.containers| && d.containers[id].run == r :: run.sandbox == Some(id) || run.hop == Some(id)
  }

  predicate EveryNetwork(d: Daemon, r: nat, run: Run) {
    forall id | 0 <= id < |d.networks| && d.networks[id].run == r :: run.network == Some(id)
  }

  predicate Nets(env: Env, d: Daemon, r: nat, run: Run) {
    forall id | 0 <= id < |d.containers| && d.containers[id].run == r ::
      var c := d.containers[id];
      if c.kind == Sandbox then
        && c.nets == (if run.plan.egress then {NetName(run.plan.runId)} else {})
        && (c.started ==> run.sandbox == Some(id))
      else NetName(run.plan.runId) in c.nets && c.nets <= {NetName(run.plan.runId), env.egressNet}
  }

  /** The daemon made a container for the run, whether or not the run was told. */
  predicate Made(d: Daemon, r: nat) {
    exists c | c in d.containers :: c.run == r
  }

  /** A run's one network stands until teardown, and past a failed build that made a container. */
  predicate NetKept(d: Daemon, r: nat, run: Run) {
    run.network.Some? ==>
      && run.network.value < |d.networks|
      && EveryNetwork(d, r, run)
      && (!TearingDown(run) || (BuildFailed(run) && Made(d, r)) ==> !d.networks[run.network.value].gone)
  }

  /** The removals one run has asked for, in order. */
  function Mine(attempts: seq<Attempt>, r: nat): seq<Thing> {
    if attempts == [] then []
    else Mine(attempts[..|attempts| - 1], r) + (if Last(attempts).run == r then [Last(attempts).what] else [])
  }

  /** Sandbox, hop, network. */
  function Everything(run: Run): seq<Thing>
    requires run.sandbox.Some?
  {
    [ContainerThing(run.sandbox.value)]
    + (if run.hop.Some? then [ContainerThing(run.hop.value)] else [])
    + (if run.network.Some? then [NetworkThing(run.network.value)] else [])
  }

  /** What must have been asked for by now. */
  function Due(run: Run): seq<Thing> {
    match run.pc
    case RemoveHop => if run.sandbox.Some? then [ContainerThing(run.sandbox.value)] else []
    case RemoveNet =>
      if run.sandbox.Some? && run.hop.Some? then
        [ContainerThing(run.sandbox.value), ContainerThing(run.hop.value)]
      else []
    case Finished =>
      if run.sandbox.Some? then Everything(run)
      else if run.network.Some? then [NetworkThing(run.network.value)] else []
    case _ => []
  }

  predicate Ledger(d: Daemon, r: nat, run: Run) {
    Mine(d.attempts, r) == Due(run)
  }

  /** The egress sandbox is created only once its hop has said it listens. */
  predicate Gate(run: Run) {
    run.plan.egress && (run.pc == CreateSandbox || run.sandbox.Some?) ==> run.hopState.listening
  }

  function Denials(log: seq<Line>): seq<string> {
    if log == [] then []
    else Denials(log[..|log| - 1]) + (match Last(log) case Denied(host) => [host] case _ => [])
  }

  /** Only permitted destinations, one announcement at most, and of a host that is not permitted. */
  ghost predicate HopOk(env: Env, run: Run) {
    var h := run.hopState;
    && (forall t | t in h.tunnels ::
          exists host :: Permitted(host, run.plan.allow, env.policy) && t.host == StripBrackets(host)
                         && ParsedHost(host))
    && (if h.denied then
          && |Denials(h.log)| == 1 && !Permitted(Denials(h.log)[0], run.plan.allow, env.policy)
          && ParsedHost(Denials(h.log)[0])
        else Denials(h.log) == [])
    && (Listening in h.log ==> h.listening)
  }

  /** The runner's `denied` is the first denial among the lines delivered to it. */
  predicate Heard(run: Run) {
    && run.cursor <= |run.hopState.log|
    && (run.hop.None? ==> run.cursor == 0)
    && (run.sandbox.None? ==> run.denied.None?)
    && (run.sandbox.Some? ==>
          run.denied == (var heard := Denials(run.hopState.log[..run.cursor]);
                         if heard == [] then None else Some(heard[0])))
  }

  predicate Decided(d: Daemon, run: Run) {
    && (run.status.Some? ==> run.sandbox.Some? && run.sandbox.value < |d.containers|
                             && d.containers[run.sandbox.value].exit == run.status)
    && (run.outcome.Some? && run.outcome != Some(Threw) ==>
          run.sandbox.Some? && run.outcome == Some(Decide(run.denied, run.status)))
  }

  /** Nothing is removed before teardown; after it, what is still there was reported. */
  predicate Clean(d: Daemon, r: nat, run: Run) {
    && (!TearingDown(run) || BuildFailed(run) ==>
          forall id | 0 <= id < |d.containers| && d.containers[id].run == r :: !d.containers[id].gone)
    && (run.reports == 0 && run.sandbox.Some? && TearingDown(run) && run.pc != RemoveSandbox ==>
          run.sandbox.value < |d.containers| && d.containers[run.sandbox.value].gone)
    && (run.reports == 0 && run.sandbox.Some? && run.hop.Some? && (run.pc == RemoveNet || run.pc == Finished) ==>
          run.hop.value < |d.containers| && d.containers[run.hop.value].gone)
    && (run.reports == 0 && run.sandbox.Some? && run.network.Some? && run.pc == Finished ==>
          run.network.value < |d.networks| && d.networks[run.network.value].gone)
  }

  ghost predicate RunOk(env: Env, d: Daemon, r: nat, run: Run) {
    && Shape(run) && Holds(d, r, run) && HoldsAll(d, r, run) && Nets(env, d, r, run) && Ledger(d, r, run)
    && Gate(run) && HopOk(env, run) && Heard(run) && Decided(d, run) && Clean(d, r, run) && NetKept(d, r, run)
  }

  lemma OkIsReady(env: Env, d: Daemon, r: nat, run: Run)
    requires RunOk(env, d, r, run)
    ensures Ready(d, run)
  {
  }

  // ---------------------------------------------------------------------------
  // One run's effect leaves the others' things alone.
  // ---------------------------------------------------------------------------

  /** From `d` to `d'` only things of run `r` were added or changed. */
  ghost predicate OnlyTouches(d: Daemon, d': Daemon, r: nat) {
    && |d.containers| <= |d'.containers| && |d.networks| <= |d'.networks|
    && (forall id | 0 <= id < |d.containers| ::
          && d'.containers[id].run == d.containers[id].run && d'.containers[id].kind == d.containers[id].kind
          && (d.containers[id].run != r ==> d'.containers[id] == d.containers[id]))
    && (forall id | |d.containers| <= id < |d'.containers| :: d'.containers[id].run == r)
    && (forall id | 0 <= id < |d.networks| ::
          && d'.networks[id].run == d.networks[id].run && d'.networks[id].name == d.networks[id].name
          && (d.networks[id].run != r ==> d'.networks[id] == d.networks[id]))
    && (forall id | |d.networks| <= id < |d'.networks| :: d'.networks[id].run == r)
    && (d'.attempts == d.attempts || exists what :: d'.attempts == d.attempts + [Attempt(r, what)] && Whose(d, what, r))
  }

  predicate Whose(d: Daemon, what: Thing, r: nat) {
    match what
    case ContainerThing(id) => id < |d.containers| && d.containers[id].run == r
    case NetworkThing(id) => id < |d.networks| && d.networks[id].run == r
  }

  lemma MineSnoc(attempts: seq<Attempt>, a: Attempt, r: nat)
    ensures Mine(attempts + [a], r) == Mine(attempts, r) + (if a.run == r then [a.what] else [])
  {
    assert (attempts + [a])[..|attempts|] == attempts;
  }

  lemma MadeStays(d: Daemon, d': Daemon, r: nat, other: nat)
    requires OnlyTouches(d, d', r) && other != r
    ensures Made(d', other) <==> Made(d, other)
  {
    if c :| c in d.containers && c.run == other {
      var id :| 0 <= id < |d.containers| && d.containers[id] == c;
      assert d'.containers[id] in d'.containers;
    }
    if c :| c in d'.containers && c.run == other {
      var id :| 0 <= id < |d'.containers| && d'.containers[id] == c;
      assert id < |d.containers| && d.containers[id] in d.containers;
    }
  }

  lemma OthersKeep(env: Env, d: Daemon, d': Daemon, r: nat, other: nat, run: Run)
    requires RunOk(env, d, other, run) && other != r && OnlyTouches(d, d', r)
    ensures RunOk(env, d', other, run)
  {
    hide HopOk, Heard, Gate, Shape, Due, Mine;
    MadeStays(d, d', r, other);
    assert Mine(d'.attempts, other) == Mine(d.attempts, other) by {
      if what :| d'.attempts == d.attempts + [Attempt(r, what)] {
        MineSnoc(d.attempts, Attempt(r, what), other);
      }
    }
  }

  lemma CallTouches(env: Env, d: Daemon, r: nat, run: Run, reply: Reply)
    requires Holds(d, r, run) && Ready(d, run)
    ensures OnlyTouches(d, CallStep(env, d, r, run, reply).0, r)
  {
    hide Attached, Taken, NetName, Decide;
    if run.pc == RemoveSandbox {
      assert Whose(d, ContainerThing(run.sandbox.value), r);
    } else if run.pc == RemoveHop {
      assert Whose(d, ContainerThing(run.hop.value), r);
    } else if run.pc == RemoveNet || run.pc == DropNetwork {
      assert Whose(d, NetworkThing(run.network.value), r);
    }
  }

  lemma EffectTouches(env: Env, d: Daemon, r: nat, run: Run, m: Move)
    requires RunOk(env, d, r, run) && Ready(d, run)
    ensures OnlyTouches(d, Effect(env, d, r, run, m).0, r)
  {
    hide Shape, Ledger, HopOk, Heard, Decided, Gate, Nets, HoldsAll, Clean, NetKept, CallStep;
    if m.Call? {
      CallTouches(env, d, r, run, m.reply);
    }
  }

  // ---------------------------------------------------------------------------
  // And keeps its own.
  // ---------------------------------------------------------------------------

  lemma SameHop(env: Env, run: Run, run': Run)
    requires HopOk(env, run) && run'.hopState == run.hopState && run'.plan == run.plan
    ensures HopOk(env, run')
  {
  }

  lemma CallShape(env: Env, d: Daemon, r: nat, run: Run, reply: Reply)
    requires Shape(run) && Gate(run) && Ready(d, run)
    ensures
      var (d', run') := CallStep(env, d, r, run, reply);
      Shape(run') && Gate(run') && run'.hopState == run.hopState && run'.plan == run.plan
  {
    hide Attached, Taken, Decide, NetName;
    var (d', run') := CallStep(env, d, r, run, reply);
  }

  lemma CallHeard(env: Env, d: Daemon, r: nat, run: Run, reply: Reply)
    requires Shape(run) && Heard(run) && Ready(d, run)
    ensures
      var (d', run') := CallStep(env, d, r, run, reply);
      Heard(run')
  {
    hide Attached, Taken, Decide, NetName, Denials;
    var (d', run') := CallStep(env, d, r, run, reply);
    assert run.hopState.log[..0] == [];
    EmptyLog();
  }

  lemma CallHolds(env: Env, d: Daemon, r: nat, run: Run, reply: Reply)
    requires Shape(run) && Holds(d, r, run) && Ready(d, run)
    ensures
      var (d', run') := CallStep(env, d, r, run, reply);
      Holds(d', r, run')
  {
    hide Attached, Taken, Decide, NetName;
    var (d', run') := CallStep(env, d, r, run, reply);
  }

  lemma CallHoldsContainers(env: Env, d: Daemon, r: nat, run: Run, reply: Reply)
    requires Shape(run) && Holds(d, r, run) && HoldsAll(d, r, run) && Ready(d, run)
    ensures
      var (d', run') := CallStep(env, d, r, run, reply);
      !BuildFailed(run') ==> EveryContainer(d', r, run')
  {
    hide Attached, Taken, Decide, NetName, EveryNetwork;
    var (d', run') := CallStep(env, d, r, run, reply);
  }

  lemma CallHoldsNetworks(env: Env, d: Daemon, r: nat, run: Run, reply: Reply)
    requires Shape(run) && Holds(d, r, run) && HoldsAll(d, r, run) && Ready(d, run)
    ensures
      var (d', run') := CallStep(env, d, r, run, reply);
      !BuildFailed(run') ==> EveryNetwork(d', r, run')
  {
    hide Attached, Taken, Decide, NetName, EveryContainer;
    var (d', run') := CallStep(env, d, r, run, reply);
  }

  lemma CallHoldsAll(env: Env, d: Daemon, r: nat, run: Run, reply: Reply)
    requires RunOk(env, d, r, run) && Ready(d, run)
    ensures
      var (d', run') := CallStep(env, d, r, run, reply);
      HoldsAll(d', r, run')
  {
    hide Nets, Ledger, Gate, HopOk, Heard, Decided, Clean, Attached, Taken, Mine, Due, Decide, NetName, Denials;
    CallHoldsContainers(env, d, r, run, reply);
    CallHoldsNetworks(env, d, r, run, reply);
    hide RunOk, Ready, CallStep, EveryContainer, EveryNetwork, BuildFailed;
  }

  lemma CallNetsBuilding(env: Env, d: Daemon, r: nat, run: Run, reply: Reply)
    requires Shape(run) && Holds(d, r, run) && Nets(env, d, r, run) && Ready(d, run) && run.sandbox.None?
    ensures
      var (d', run') := CallStep(env, d, r, run, reply);
      Nets(env, d', r, run')
  {
    hide Attached, Taken, Decide, NetName;
    var (d', run') := CallStep(env, d, r, run, reply);
  }

  lemma CallNetsBuilt(env: Env, d: Daemon, r: nat, run: Run, reply: Reply)
    requires Shape(run) && Holds(d, r, run) && Nets(env, d, r, run) && Ready(d, run) && run.sandbox.Some?
    ensures
      var (d', run') := CallStep(env, d, r, run, reply);
      Nets(env, d', r, run')
  {
    hide Attached, Taken, Decide, NetName;
    var (d', run') := CallStep(env, d, r, run, reply);
  }

  lemma CallNets(env: Env, d: Daemon, r: nat, run: Run, reply: Reply)
    requires RunOk(env, d, r, run) && Ready(d, run)
    ensures
      var (d', run') := CallStep(env, d, r, run, reply);
      Nets(env, d', r, run')
  {
    hide Ledger, Gate, HopOk, Heard, Decided, Clean, Attached, Taken, Mine, Due, Decide, NetName, Denials;
    if run.sandbox.Some? {
      CallNetsBuilt(env, d, r, run, reply);
    } else {
      CallNetsBuilding(env, d, r, run, reply);
    }
    hide RunOk, Ready, CallStep, Nets;
  }

  /** While nothing of the run's is removed, its own containers keep its network from being removed. */
  lemma OwnKeepAttached(env: Env, d: Daemon, r: nat, run: Run)
    requires RunOk(env, d, r, run) && run.pc == DropNetwork && Made(d, r)
    ensures Attached(d, NetName(run.plan.runId))
  {
    var c :| c in d.containers && c.run == r;
    var id :| 0 <= id < |d.containers| && d.containers[id] == c;
    hide HopOk, Heard, Decided, Gate, HoldsAll, Ledger, Mine, Due;
  }

  lemma NetKeptBy(env: Env, d: Daemon, r: nat, run: Run, reply: Reply)
    requires Shape(run) && Holds(d, r, run) && NetKept(d, r, run) && Ready(d, run)
    requires run.pc == DropNetwork && Made(d, r) ==> Attached(d, NetName(run.plan.runId))
    requires
      var (d', run') := CallStep(env, d, r, run, reply);
      run'.network.Some? ==> EveryNetwork(d', r, run')
    ensures
      var (d', run') := CallStep(env, d, r, run, reply);
      NetKept(d', r, run')
  {
    hide Attached, Taken, Decide, NetName, EveryNetwork;
    var (d', run') := CallStep(env, d, r, run, reply);
    if run.pc == DropNetwork {
      assert d'.containers == d.containers;
    }
  }

  lemma OwnNetwork(env: Env, d: Daemon, r: nat, run: Run, reply: Reply)
    requires Shape(run) && Holds(d, r, run) && HoldsAll(d, r, run) && NetKept(d, r, run) && Ready(d, run)
    ensures
      var (d', run') := CallStep(env, d, r, run, reply);
      run'.network.Some? ==> EveryNetwork(d', r, run')
  {
    CallHoldsNetworks(env, d, r, run, reply);
    hide Attached, Taken, Decide, NetName, EveryContainer;
    var (d', run') := CallStep(env, d, r, run, reply);
  }

  lemma CallNetKept(env: Env, d: Daemon, r: nat, run: Run, reply: Reply)
    requires RunOk(env, d, r, run) && Ready(d, run)
    ensures
      var (d', run') := CallStep(env, d, r, run, reply);
      NetKept(d', r, run')
  {
    if run.pc == DropNetwork && Made(d, r) {
      OwnKeepAttached(env, d, r, run);
    }
    OwnNetwork(env, d, r, run, reply);
    hide Shape, Holds, HoldsAll, Nets, Ledger, Gate, HopOk, Heard, Decided, Clean, CallStep, Ready, Made, Attached;
    NetKeptBy(env, d, r, run, reply);
    hide NetKept, EveryNetwork;
  }

  lemma CallDecided(env: Env, d: Daemon, r: nat, run: Run, reply: Reply)
    requires Shape(run) && Holds(d, r, run) && Decided(d, run) && Ready(d, run)
    ensures
      var (d', run') := CallStep(env, d, r, run, reply);
      Decided(d', run')
  {
    hide Attached, Taken, Decide, NetName;
    var (d', run') := CallStep(env, d, r, run, reply);
  }

  lemma CallCleanBuilding(env: Env, d: Daemon, r: nat, run: Run, reply: Reply)
    requires Shape(run) && Holds(d, r, run) && Clean(d, r, run) && Ready(d, run) && run.sandbox.None?
    ensures
      var (d', run') := CallStep(env, d, r, run, reply);
      Clean(d', r, run')
  {
    hide Attached, Taken, Decide, NetName;
    var (d', run') := CallStep(env, d, r, run, reply);
  }

  lemma CallCleanBuilt(env: Env, d: Daemon, r: nat, run: Run, reply: Reply)
    requires Shape(run) && Holds(d, r, run) && Clean(d, r, run) && Ready(d, run) && run.sandbox.Some?
    ensures
      var (d', run') := CallStep(env, d, r, run, reply);
      Clean(d', r, run')
  {
    hide Attached, Taken, Decide, NetName;
    var (d', run') := CallStep(env, d, r, run, reply);
  }

  lemma CallClean(env: Env, d: Daemon, r: nat, run: Run, reply: Reply)
    requires Shape(run) && Holds(d, r, run) && Clean(d, r, run) && Ready(d, run)
    ensures
      var (d', run') := CallStep(env, d, r, run, reply);
      Clean(d', r, run')
  {
    if run.sandbox.Some? {
      CallCleanBuilt(env, d, r, run, reply);
    } else {
      CallCleanBuilding(env, d, r, run, reply);
    }
    hide Shape, Holds, Ready, CallStep, Clean;
  }

  /** The removal the next call asks for. */
  function Asks(run: Run): seq<Thing> {
    match run.pc
    case RemoveSandbox => if run.sandbox.Some? then [ContainerThing(run.sandbox.value)] else []
    case RemoveHop => if run.hop.Some? then [ContainerThing(run.hop.value)] else []
    case RemoveNet | DropNetwork => if run.network.Some? then [NetworkThing(run.network.value)] else []
    case _ => []
  }

  lemma CallAsks(env: Env, d: Daemon, r: nat, run: Run, reply: Reply)
    requires Ready(d, run)
    ensures Mine(CallStep(env, d, r, run, reply).0.attempts, r) == Mine(d.attempts, r) + Asks(run)
  {
    hide Attached, Taken, Mine, Decide, NetName;
    var d' := CallStep(env, d, r, run, reply).0;
    if Asks(run) == [] {
      assert d'.attempts == d.attempts;
    } else {
      MineSnoc(d.attempts, Attempt(r, Asks(run)[0]), r);
      assert d'.attempts == d.attempts + [Attempt(r, Asks(run)[0])];
    }
  }

  lemma CallDue(env: Env, d: Daemon, r: nat, run: Run, reply: Reply)
    requires Shape(run) && Ready(d, run)
    ensures Due(CallStep(env, d, r, run, reply).1) == Due(run) + Asks(run)
  {
    hide Attached, Taken, Decide, NetName;
  }

  lemma CallLedger(env: Env, d: Daemon, r: nat, run: Run, reply: Reply)
    requires RunOk(env, d, r, run) && Ready(d, run)
    ensures
      var (d', run') := CallStep(env, d, r, run, reply);
      Ledger(d', r, run')
  {
    hide Holds, HoldsAll, Nets, Gate, HopOk, Heard, Decided, Clean, CallStep, Mine, Due, Shape, Asks, Ready;
    CallAsks(env, d, r, run, reply);
    CallDue(env, d, r, run, reply);
  }

  lemma EmptyLog()
    ensures Denials([]) == []
  {
  }

  lemma CallKeeps(env: Env, d: Daemon, r: nat, run: Run, reply: Reply)
    requires RunOk(env, d, r, run) && Ready(d, run)
    ensures
      var (d', run') := CallStep(env, d, r, run, reply);
      RunOk(env, d', r, run')
  {
    hide Ready, CallStep, Shape, Holds, HoldsAll, Nets, Ledger, Gate, Heard, Decided, Clean, NetKept;
    CallNetKept(env, d, r, run, reply);
    CallShape(env, d, r, run, reply);
    CallHeard(env, d, r, run, reply);
    CallHolds(env, d, r, run, reply);
    CallHoldsAll(env, d, r, run, reply);
    CallNets(env, d, r, run, reply);
    CallDecided(env, d, r, run, reply);
    CallClean(env, d, r, run, reply);
    CallLedger(env, d, r, run, reply);
    SameHop(env, run, CallStep(env, d, r, run, reply).1);
    hide HopOk;
  }

  lemma LogGrows(run: Run, h: HopState)
    requires Heard(run) && run.hopState.log <= h.log
    ensures Heard(run.(hopState := h))
  {
    if run.cursor <= |run.hopState.log| {
      assert h.log[..run.cursor] == run.hopState.log[..run.cursor];
    }
  }

  lemma DenialsSnoc(log: seq<Line>, line: Line)
    ensures Denials(log + [line]) == Denials(log) + (match line case Denied(host) => [host] case _ => [])
  {
    assert (log + [line])[..|log|] == log;
  }

  lemma ConnectKeeps(env: Env, run: Run, target: string)
    requires HopOk(env, run) && run.hopState.listening
    ensures
      var h := OnConnect(run.hopState, target, run.plan.allow, env.policy).0;
      HopOk(env, run.(hopState := h)) && run.hopState.log <= h.log && h.listening
  {
    var h := OnConnect(run.hopState, target, run.plan.allow, env.policy).0;
    hide ParseAuthority, Permitted, IsForbiddenAddress, StripBrackets, Denials;
    hide PlainHost, BracketedHost;
    if !run.hopState.denied && ParseAuthority(target).Some? {
      var t := ParseAuthority(target).value;
      ParsedIsSpelled(target, t);
      DenialsSnoc(run.hopState.log, Denied(t.host));
    }
  }

  lemma HopStepKeeps(env: Env, run: Run, m: Move)
    requires HopOk(env, run)
    ensures
      var h := HopStep(env, run, m);
      HopOk(env, run.(hopState := h)) && run.hopState.log <= h.log && (run.hopState.listening ==> h.listening)
  {
    hide Permitted, Denials, OnConnect;
    match m
    case HopConnect(_, target) =>
      if run.hopState.listening {
        ConnectKeeps(env, run, target);
      }
    case HopListens(_) => DenialsSnoc(run.hopState.log, Listening);
    case HopPrints(_) => DenialsSnoc(run.hopState.log, Other);
    case _ =>
  }

  /** A run whose hop moved is still a good run. */
  lemma HopMoveKeeps(env: Env, d: Daemon, r: nat, run: Run, h: HopState)
    requires RunOk(env, d, r, run) && HopOk(env, run.(hopState := h))
    requires run.hopState.log <= h.log && (run.hopState.listening ==> h.listening)
    ensures RunOk(env, d, r, run.(hopState := h))
  {
    LogGrows(run, h);
    hide HopOk, Heard, Mine, NetName;
  }

  lemma DeliverHeard(run: Run)
    requires Shape(run) && Heard(run)
    ensures Heard(DeliverStep(run))
  {
    hide Denials;
    if run.cursor < |run.hopState.log| {
      var log := run.hopState.log;
      assert log[..run.cursor + 1] == log[..run.cursor] + [log[run.cursor]];
      DenialsSnoc(log[..run.cursor], log[run.cursor]);
    }
  }

  lemma DeliverGate(env: Env, run: Run)
    requires Shape(run) && HopOk(env, run) && Gate(run)
    ensures Gate(DeliverStep(run))
  {
    hide Permitted, Denials;
  }

  lemma DeliverShape(d: Daemon, r: nat, run: Run)
    requires Shape(run) && Holds(d, r, run) && Decided(d, run)
    ensures
      var run' := DeliverStep(run);
      Holds(d, r, run') && Decided(d, run') && Shape(run') && Due(run') == Due(run)
  {
    hide Decide;
  }

  /** What a delivered line leaves alone. */
  lemma DeliverFrame(run: Run)
    ensures
      var run' := DeliverStep(run);
      && run'.sandbox == run.sandbox && run'.hop == run.hop && run'.network == run.network
      && run'.plan == run.plan && run'.reports == run.reports
      && (run'.pc == run.pc || (run.pc == AwaitHop && run'.pc == CreateSandbox))
  {
    hide DeniedHostOf, Following;
  }

  lemma DeliverThings(env: Env, d: Daemon, r: nat, run: Run)
    requires Shape(run) && HoldsAll(d, r, run) && Nets(env, d, r, run) && Clean(d, r, run) && NetKept(d, r, run)
    ensures
      var run' := DeliverStep(run);
      HoldsAll(d, r, run') && Nets(env, d, r, run') && Clean(d, r, run') && NetKept(d, r, run')
  {
    DeliverFrame(run);
    hide NetName, DeliverStep, Shape, Made;
  }

  lemma DeliverKeeps(env: Env, d: Daemon, r: nat, run: Run)
    requires RunOk(env, d, r, run)
    ensures RunOk(env, d, r, DeliverStep(run))
  {
    hide HopOk, Heard, Gate, HoldsAll, Nets, Clean, NetKept, Shape, Holds, Decided, Due, Mine, DeliverStep;
    DeliverHeard(run);
    DeliverGate(env, run);
    DeliverShape(d, r, run);
    DeliverThings(env, d, r, run);
    DeliverHopState(run);
    SameHop(env, run, DeliverStep(run));
  }

  lemma DeliverHopState(run: Run)
    ensures DeliverStep(run).hopState == run.hopState && DeliverStep(run).plan == run.plan
  {
  }

  /** A sandbox that stops, by itself or killed. */
  lemma ExitKeeps(env: Env, d: Daemon, r: nat, run: Run, code: int)
    requires RunOk(env, d, r, run) && run.sandbox.Some? && run.sandbox.value < |d.containers|
    requires d.containers[run.sandbox.value].exit == None
    ensures RunOk(env, Change(d, run.sandbox.value, d.containers[run.sandbox.value].(exit := Some(code))), r, run)
  {
    hide HopOk, Heard, Gate, Mine, NetName, Shape, Due;
  }

  lemma EffectKeeps(env: Env, d: Daemon, r: nat, run: Run, m: Move)
    requires RunOk(env, d, r, run) && Ready(d, run)
    ensures
      var (d', run') := Effect(env, d, r, run, m);
      RunOk(env, d', r, run')
  {
    hide RunOk, CallStep, DeliverStep, HopStep;
    assert HopOk(env, run) by { OkParts(env, d, r, run); }
    match m
    case Call(_, reply) => CallKeeps(env, d, r, run, reply);
    case Deliver(_) => DeliverKeeps(env, d, r, run);
    case KillLands(_) =>
      if run.killing && run.sandbox.Some? && d.containers[run.sandbox.value].exit == None {
        ExitKeeps(env, d, r, run, 137);
      }
    case SandboxExits(_, code) =>
      if run.sandbox.Some? && d.containers[run.sandbox.value].exit == None {
        ExitKeeps(env, d, r, run, code);
      }
    case HopListens(_) | HopConnect(_, _) | HopPrints(_) =>
      HopStepKeeps(env, run, m);
      HopMoveKeeps(env, d, r, run, HopStep(env, run, m));
  }

  lemma OkParts(env: Env, d: Daemon, r: nat, run: Run)
    requires RunOk(env, d, r, run)
    ensures HopOk(env, run)
  {
  }

  // ---------------------------------------------------------------------------
  // Any number of runs.
  // ---------------------------------------------------------------------------

  ghost predicate Inv(env: Env, plans: seq<Plan>, s: System) {
    && |s.runs| == |plans|
    && (forall r | 0 <= r < |s.runs| :: RunOk(env, s.daemon, r, s.runs[r]) && s.runs[r].plan == plans[r])
    && (forall id | 0 <= id < |s.daemon.containers| :: s.daemon.containers[id].run < |s.runs|)
    && (forall a | a in s.daemon.attempts :: Whose(s.daemon, a.what, a.run))
  }

  function Start(plans: seq<Plan>): System {
    System(Daemon([], [], []),
           seq(|plans|, i requires 0 <= i < |plans| =>
             Run(plans[i], if plans[i].egress then CreateNetwork else CreatePlain, None, None, None,
                 HopState(false, false, [], []), 0, None, false, None, None, 0)))
  }

  /** A move of a run there is not, or of one whose ids are not the daemon's, does nothing. */
  function Step(env: Env, s: System, m: Move): (s': System)
    ensures |s'.runs| == |s.runs|
  {
    if m.who >= |s.runs| || !Ready(s.daemon, s.runs[m.who]) then s
    else
      var (d, run) := Effect(env, s.daemon, m.who, s.runs[m.who], m);
      System(d, s.runs[m.who := run])
  }

  function RunAll(env: Env, plans: seq<Plan>, moves: seq<Move>): (s: System)
    ensures |s.runs| == |plans|
  {
    if moves == [] then Start(plans) else Step(env, RunAll(env, plans, moves[..|moves| - 1]), Last(moves))
  }

  lemma WhoseStill(d: Daemon, d': Daemon, r: nat, what: Thing, owner: nat)
    requires OnlyTouches(d, d', r) && Whose(d, what, owner)
    ensures Whose(d', what, owner)
  {
  }

  lemma EffectPlan(env: Env, d: Daemon, r: nat, run: Run, m: Move)
    requires Ready(d, run)
    ensures Effect(env, d, r, run, m).1.plan == run.plan
  {
  }

  lemma StepKeeps(env: Env, plans: seq<Plan>, s: System, m: Move)
    requires Inv(env, plans, s)
    ensures Inv(env, plans, Step(env, s, m))
  {
    hide RunOk, Effect, OnlyTouches, Whose;
    if m.who < |s.runs| && Ready(s.daemon, s.runs[m.who]) {
      var (d', run') := Effect(env, s.daemon, m.who, s.runs[m.who], m);
      EffectKeeps(env, s.daemon, m.who, s.runs[m.who], m);
      EffectTouches(env, s.daemon, m.who, s.runs[m.who], m);
      EffectPlan(env, s.daemon, m.who, s.runs[m.who], m);
      TouchesOwners(s.daemon, d', m.who, |s.runs|);
      forall r | 0 <= r < |s.runs| && r != m.who ensures RunOk(env, d', r, s.runs[r]) {
        OthersKeep(env, s.daemon, d', m.who, r, s.runs[r]);
      }
    }
  }

  lemma TouchesOwners(d: Daemon, d': Daemon, r: nat, n: nat)
    requires OnlyTouches(d, d', r) && r < n
    requires forall id | 0 <= id < |d.containers| :: d.containers[id].run < n
    requires forall a | a in d.attempts :: Whose(d, a.what, a.run)
    ensures forall id | 0 <= id < |d'.containers| :: d'.containers[id].run < n
    ensures forall a | a in d'.attempts :: Whose(d', a.what, a.run)
  {
    hide Whose;
    forall a | a in d'.attempts ensures Whose(d', a.what, a.run) {
      WhoseAfter(d, d', r, a);
    }
  }

  lemma WhoseAfter(d: Daemon, d': Daemon, r: nat, a: Attempt)
    requires OnlyTouches(d, d', r) && a in d'.attempts
    requires forall a | a in d.attempts :: Whose(d, a.what, a.run)
    ensures Whose(d', a.what, a.run)
  {
    hide Whose;
    if a in d.attempts {
      WhoseStill(d, d', r, a.what, a.run);
    } else {
      WhoseStill(d, d', r, a.what, r);
    }
  }

  lemma StartKeeps(env: Env, plans: seq<Plan>)
    ensures Inv(env, plans, Start(plans))
  {
  }

  lemma {:induction false} RunKeeps(env: Env, plans: seq<Plan>, moves: seq<Move>)
    ensures Inv(env, plans, RunAll(env, plans, moves))
  {
    hide Inv, Step, Start;
    if moves == [] {
      StartKeeps(env, plans);
    } else {
      RunKeeps(env, plans, moves[..|moves| - 1]);
      StepKeeps(env, plans, RunAll(env, plans, moves[..|moves| - 1]), Last(moves));
    }
  }
}
