/**
 * The closed loop of `apps/server/src/ingest.ts` and `handler.ts`: what the app posts comes back to it as
 * message events, and never as a reason to post again.
 */
module IngestLoop {
  import opened Base
  import opened Ingest

  /** An event on its way in. A message that mentions the app comes as both copies. */
  datatype Item = MessageCopy(m: Message) | MentionCopy(m: Message)

  /** `origin`: the message it was started for. `left`: how many more posts it will make. */
  datatype Task = Task(origin: Message, left: nat)

  /** `posted` is a history: what people posted. */
  datatype Loop = Loop(queue: seq<Item>, tasks: seq<Task>, posted: seq<Message>)

  datatype Move =
    | PersonPosts(m: Message)
    // `active`: whether the thread is one the agent is working in at that moment.
    | Arrives(k: nat, active: bool, posts: nat)
    | TaskPosts(t: nat, m: Message)

  const NOTHING := Loop([], [], [])

  /** Whether the event starts a task: a mention always, a message when it follows. */
  predicate Starts(w: Wiring, item: Item, active: bool) {
    match item
    case MentionCopy(_) => true
    case MessageCopy(m) => Follows(w, m, active)
  }

  /** Both copies of a mention, in one order or the other; one copy of anything else. */
  function Copies(m: Message): seq<Item> {
    if m.mentionsApp then [MentionCopy(m), MessageCopy(m)] else [MessageCopy(m)]
  }

  function Without<T>(s: seq<T>, k: nat): seq<T>
    requires k < |s|
  {
    s[..k] + s[k + 1..]
  }

  function Step(w: Wiring, l: Loop, move: Move): Loop {
    match move
    case PersonPosts(m) =>
      if m.fromApp || Posted(l.posted, m.ts) then l
      else l.(queue := l.queue + Copies(m), posted := l.posted + [m])
    case Arrives(k, active, posts) =>
      if k >= |l.queue| then l
      else
        var item := l.queue[k];
        l.(queue := Without(l.queue, k),
           tasks := if Starts(w, item, active) then l.tasks + [Task(item.m, posts)] else l.tasks)
    case TaskPosts(t, m) =>
      if t >= |l.tasks| || l.tasks[t].left == 0 || !m.fromApp then l
      else l.(queue := l.queue + [MessageCopy(m)], tasks := l.tasks[t := l.tasks[t].(left := l.tasks[t].left - 1)])
  }

  function Run(w: Wiring, moves: seq<Move>): Loop {
    if moves == [] then NOTHING else Step(w, Run(w, moves[..|moves| - 1]), Last(moves))
  }

  // ---------------------------------------------------------------------------
  // Who may still start a task, and who has.
  // ---------------------------------------------------------------------------

  /** A queued event that could still start a task. */
  predicate Claims(item: Item) {
    item.MentionCopy? || (!item.m.fromApp && !item.m.mentionsApp)
  }

  /** How many queued events could still start a task for a message. */
  function ClaimsFor(queue: seq<Item>, ts: string): nat {
    if queue == [] then 0
    else ClaimsFor(queue[..|queue| - 1], ts) + (if Claims(Last(queue)) && Last(queue).m.ts == ts then 1 else 0)
  }

  /** How many tasks were started for it. */
  function TasksFor(tasks: seq<Task>, ts: string): nat {
    if tasks == [] then 0
    else TasksFor(tasks[..|tasks| - 1], ts) + (if Last(tasks).origin.ts == ts then 1 else 0)
  }

  lemma ClaimsSnoc(queue: seq<Item>, item: Item, ts: string)
    ensures ClaimsFor(queue + [item], ts) == ClaimsFor(queue, ts) + if Claims(item) && item.m.ts == ts then 1 else 0
  {
    assert (queue + [item])[..|queue|] == queue;
  }

  lemma WithoutSnoc<T>(init: seq<T>, l: T, k: nat)
    requires k <= |init|
    ensures Without(init + [l], k) == if k < |init| then Without(init, k) + [l] else init
  {
  }

  lemma {:induction false} ClaimsWithout(queue: seq<Item>, k: nat, ts: string)
    requires k < |queue|
    ensures ClaimsFor(queue, ts) ==
            ClaimsFor(Without(queue, k), ts) + if Claims(queue[k]) && queue[k].m.ts == ts then 1 else 0
    decreases |queue|
  {
    hide ClaimsFor, Claims;
    var init, l := queue[..|queue| - 1], Last(queue);
    assert queue == init + [l];
    ClaimsSnoc(init, l, ts);
    WithoutSnoc(init, l, k);
    if k < |init| {
      ClaimsWithout(init, k, ts);
      ClaimsSnoc(Without(init, k), l, ts);
    }
  }

  lemma TasksSnoc(tasks: seq<Task>, t: Task, ts: string)
    ensures TasksFor(tasks + [t], ts) == TasksFor(tasks, ts) + if t.origin.ts == ts then 1 else 0
  {
    assert (tasks + [t])[..|tasks|] == tasks;
  }

  lemma {:induction false} TasksSame(tasks: seq<Task>, t: nat, left: nat, ts: string)
    requires t < |tasks|
    ensures TasksFor(tasks[t := tasks[t].(left := left)], ts) == TasksFor(tasks, ts)
    decreases |tasks|
  {
    var tasks' := tasks[t := tasks[t].(left := left)];
    var init := tasks[..|tasks| - 1];
    if t == |init| {
      assert tasks'[..|tasks'| - 1] == init;
    } else {
      TasksSame(init, t, left, ts);
      assert tasks'[..|tasks'| - 1] == init[t := init[t].(left := left)];
    }
  }

  predicate Posted(posted: seq<Message>, ts: string) {
    exists p | p in posted :: p.ts == ts
  }

  /** People's messages are posted once each, and every event and every task is for one of them or the app's. */
  predicate Sound(l: Loop) {
    && (forall p | p in l.posted :: !p.fromApp)
    && (forall p, q | p in l.posted && q in l.posted && p.ts == q.ts :: p == q)
    && (forall item | item in l.queue :: item.m.fromApp || item.m in l.posted)
    && (forall item | item in l.queue && item.MentionCopy? :: !item.m.fromApp && item.m.mentionsApp)
    && (forall t | t in l.tasks :: t.origin in l.posted)
  }

  /** How many tasks a message has been given or can still be given. */
  function Accounts(l: Loop, ts: string): nat {
    ClaimsFor(l.queue, ts) + TasksFor(l.tasks, ts)
  }

  /** One at most, none for what nobody posted; and a mention never loses its claim but to its task. */
  predicate Accounted(l: Loop, ts: string) {
    && Accounts(l, ts) <= (if Posted(l.posted, ts) then 1 else 0)
    && forall p | p in l.posted && p.ts == ts && p.mentionsApp :: Accounts(l, ts) == 1
  }

  lemma CopiesClaim(queue: seq<Item>, m: Message, ts: string)
    requires !m.fromApp
    ensures ClaimsFor(queue + Copies(m), ts) == ClaimsFor(queue, ts) + if m.ts == ts then 1 else 0
  {
    if m.mentionsApp {
      ClaimsSnoc(queue, MentionCopy(m), ts);
      ClaimsSnoc(queue + [MentionCopy(m)], MessageCopy(m), ts);
      assert queue + Copies(m) == queue + [MentionCopy(m)] + [MessageCopy(m)];
    } else {
      ClaimsSnoc(queue, MessageCopy(m), ts);
    }
  }

  lemma PostSound(w: Wiring, l: Loop, m: Message)
    requires Sound(l)
    ensures Sound(Step(w, l, PersonPosts(m)))
  {
    if !m.fromApp && !Posted(l.posted, m.ts) {
      var posted := l.posted + [m];
      assert m in posted && forall p | p in l.posted :: p in posted;
      assert forall p | p in posted :: p in l.posted || p == m;
      assert forall item | item in Copies(m) :: item.m == m;
    }
  }

  lemma PostKeeps(w: Wiring, l: Loop, m: Message, ts: string)
    requires Accounted(l, ts)
    ensures Accounted(Step(w, l, PersonPosts(m)), ts)
  {
    if !m.fromApp && !Posted(l.posted, m.ts) {
      var posted := l.posted + [m];
      CopiesClaim(l.queue, m, ts);
      hide ClaimsFor, TasksFor, Copies;
      assert m in posted && forall p | p in l.posted :: p in posted;
      assert forall p | p in posted :: p in l.posted || p == m;
    }
  }

  lemma ArriveSound(w: Wiring, l: Loop, k: nat, active: bool, posts: nat)
    requires Sound(l)
    ensures Sound(Step(w, l, Arrives(k, active, posts)))
  {
    if k < |l.queue| {
      assert l.queue[k] in l.queue;
      assert forall i | i in Without(l.queue, k) :: i in l.queue;
    }
  }

  /** An arriving claim becomes its task, or is dropped if its message is no mention. */
  lemma ArriveKeeps(w: Wiring, l: Loop, k: nat, active: bool, posts: nat, ts: string)
    requires Accounted(l, ts) && Sound(l)
    ensures Accounted(Step(w, l, Arrives(k, active, posts)), ts)
  {
    if k < |l.queue| {
      var item := l.queue[k];
      ClaimsWithout(l.queue, k, ts);
      TasksSnoc(l.tasks, Task(item.m, posts), ts);
      assert item in l.queue;
      hide ClaimsFor, TasksFor, Without, Posted;
    }
  }

  lemma TaskPostKeeps(w: Wiring, l: Loop, t: nat, m: Message, ts: string)
    requires Accounted(l, ts) && Sound(l)
    ensures Accounted(Step(w, l, TaskPosts(t, m)), ts) && Sound(Step(w, l, TaskPosts(t, m)))
  {
    if t < |l.tasks| && l.tasks[t].left > 0 && m.fromApp {
      ClaimsSnoc(l.queue, MessageCopy(m), ts);
      TasksSame(l.tasks, t, l.tasks[t].left - 1, ts);
      assert l.tasks[t] in l.tasks;
      hide ClaimsFor, TasksFor, Posted;
    }
  }

  lemma {:induction false} RunKeeps(w: Wiring, moves: seq<Move>, ts: string)
    ensures Accounted(Run(w, moves), ts) && Sound(Run(w, moves))
  {
    hide Accounted, Sound, Step;
    if moves == [] {
      NothingKeeps(ts);
    } else {
      var l := Run(w, moves[..|moves| - 1]);
      RunKeeps(w, moves[..|moves| - 1], ts);
      match Last(moves)
      case PersonPosts(m) =>
        PostSound(w, l, m);
        PostKeeps(w, l, m, ts);
      case Arrives(k, active, posts) =>
        ArriveSound(w, l, k, active, posts);
        ArriveKeeps(w, l, k, active, posts, ts);
      case TaskPosts(t, m) => TaskPostKeeps(w, l, t, m, ts);
    }
  }

  lemma NothingKeeps(ts: string)
    ensures Accounted(NOTHING, ts) && Sound(NOTHING)
  {
  }

  // ---------------------------------------------------------------------------
  // Main results.
  // ---------------------------------------------------------------------------

  /** What the app posts starts nothing when it comes back. */
  lemma AgentPostStartsNothing(w: Wiring, moves: seq<Move>, k: nat, active: bool, posts: nat)
    requires k < |Run(w, moves).queue| && Run(w, moves).queue[k].m.fromApp
    ensures Step(w, Run(w, moves), Arrives(k, active, posts)).tasks == Run(w, moves).tasks
  {
    RunKeeps(w, moves, "");
    var l := Run(w, moves);
    assert l.queue[k] in l.queue;
    hide Run, Accounted;
  }

  /**
   * Whatever the interleaving: every task is for a message a person posted, each such message gets one task
   * at most, and a mention gets exactly one once its own copy has arrived.
   */
  lemma OneTaskEach(w: Wiring, moves: seq<Move>, m: Message)
    requires m in Run(w, moves).posted
    ensures TasksFor(Run(w, moves).tasks, m.ts) <= 1
    ensures m.mentionsApp && MentionCopy(m) !in Run(w, moves).queue ==> TasksFor(Run(w, moves).tasks, m.ts) == 1
    ensures forall t | t in Run(w, moves).tasks :: t.origin in Run(w, moves).posted && !t.origin.fromApp
  {
    RunKeeps(w, moves, m.ts);
    var l := Run(w, moves);
    hide Run, TasksFor, ClaimsFor, Posted;
    if m.mentionsApp && ClaimsFor(l.queue, m.ts) > 0 {
      var item := ClaimOf(l.queue, m.ts);
      assert item == MentionCopy(m);
    }
  }

  lemma {:induction false} ClaimOf(queue: seq<Item>, ts: string) returns (item: Item)
    requires ClaimsFor(queue, ts) > 0
    ensures item in queue && item.m.ts == ts && Claims(item)
  {
    var init := queue[..|queue| - 1];
    if ClaimsFor(init, ts) > 0 {
      item := ClaimOf(init, ts);
    } else {
      item := Last(queue);
    }
  }

  /** So `n` human messages cause at most `n` tasks. */
  lemma NoMoreTasksThanMessages(w: Wiring, moves: seq<Move>)
    ensures |Run(w, moves).tasks| <= |Run(w, moves).posted|
  {
    var l := Run(w, moves);
    RunKeeps(w, moves, "");
    forall t | t in l.tasks ensures TasksFor(l.tasks, t.origin.ts) <= 1 {
      OneTaskEach(w, moves, t.origin);
    }
    hide Run, Accounted;
    OriginsFit(l.tasks, l.posted);
  }

  lemma {:induction false} OriginsFit(tasks: seq<Task>, posted: seq<Message>)
    requires forall t | t in tasks :: t.origin in posted && TasksFor(tasks, t.origin.ts) <= 1
    ensures |tasks| <= |posted|
    decreases |tasks|
  {
    if tasks != [] {
      var init, last := tasks[..|tasks| - 1], Last(tasks);
      assert last in tasks;
      var k :| 0 <= k < |posted| && posted[k] == last.origin;
      forall t | t in init ensures t.origin in Without(posted, k) && TasksFor(init, t.origin.ts) <= 1 {
        assert t in tasks;
        TaskCounts(init, t);
        var j :| 0 <= j < |posted| && posted[j] == t.origin;
        assert Without(posted, k)[if j < k then j else j - 1] == t.origin;
      }
      OriginsFit(init, Without(posted, k));
    }
  }

  lemma {:induction false} TaskCounts(tasks: seq<Task>, t: Task)
    requires t in tasks
    ensures TasksFor(tasks, t.origin.ts) >= 1
  {
    if t != Last(tasks) {
      assert tasks == tasks[..|tasks| - 1] + [Last(tasks)];
      TaskCounts(tasks[..|tasks| - 1], t);
    }
  }

  // ---------------------------------------------------------------------------
  // The loop goes quiet.
  // ---------------------------------------------------------------------------

  /** `cap`: the most one task posts. */
  function ItemCost(item: Item, cap: nat): nat {
    if Claims(item) then 2 * cap + 2 else 1
  }

  function QueueCost(queue: seq<Item>, cap: nat): nat {
    if queue == [] then 0 else QueueCost(queue[..|queue| - 1], cap) + ItemCost(Last(queue), cap)
  }

  function TaskCost(tasks: seq<Task>): nat {
    if tasks == [] then 0 else TaskCost(tasks[..|tasks| - 1]) + 2 * Last(tasks).left
  }

  /** A bound on everything that can still happen while nobody posts. */
  function Energy(l: Loop, cap: nat): nat {
    QueueCost(l.queue, cap) + TaskCost(l.tasks)
  }

  lemma QueueCostSnoc(queue: seq<Item>, item: Item, cap: nat)
    ensures QueueCost(queue + [item], cap) == QueueCost(queue, cap) + ItemCost(item, cap)
  {
    assert (queue + [item])[..|queue|] == queue;
  }

  lemma {:induction false} QueueCostWithout(queue: seq<Item>, k: nat, cap: nat)
    requires k < |queue|
    ensures QueueCost(queue, cap) == QueueCost(Without(queue, k), cap) + ItemCost(queue[k], cap)
    decreases |queue|
  {
    hide QueueCost, ItemCost;
    var init, l := queue[..|queue| - 1], Last(queue);
    assert queue == init + [l];
    QueueCostSnoc(init, l, cap);
    WithoutSnoc(init, l, k);
    if k < |init| {
      QueueCostWithout(init, k, cap);
      QueueCostSnoc(Without(init, k), l, cap);
    }
  }

  lemma TaskCostSnoc(tasks: seq<Task>, t: Task)
    ensures TaskCost(tasks + [t]) == TaskCost(tasks) + 2 * t.left
  {
    assert (tasks + [t])[..|tasks|] == tasks;
  }

  lemma {:induction false} TaskCostLess(tasks: seq<Task>, t: nat)
    requires t < |tasks| && tasks[t].left > 0
    ensures TaskCost(tasks[t := tasks[t].(left := tasks[t].left - 1)]) == TaskCost(tasks) - 2
    decreases |tasks|
  {
    var tasks' := tasks[t := tasks[t].(left := tasks[t].left - 1)];
    var init := tasks[..|tasks| - 1];
    if t == |init| {
      assert tasks'[..|tasks'| - 1] == init;
    } else {
      TaskCostLess(init, t);
      assert tasks'[..|tasks'| - 1] == init[t := init[t].(left := init[t].left - 1)];
    }
  }

  /** Nobody posts, and every task started makes at most `cap` posts. */
  predicate Unprompted(move: Move, cap: nat) {
    !move.PersonPosts? && (move.Arrives? ==> move.posts <= cap)
  }

  /** While nobody posts, everything that happens brings the loop nearer to silence. */
  lemma EnergyFalls(w: Wiring, moves: seq<Move>, move: Move, cap: nat)
    requires Unprompted(move, cap)
    ensures
      var l := Run(w, moves);
      Step(w, l, move) == l || Energy(Step(w, l, move), cap) < Energy(l, cap)
  {
    RunKeeps(w, moves, "");
    var l := Run(w, moves);
    hide Run, Accounted;
    match move
    case Arrives(k, active, posts) =>
      if k < |l.queue| {
        var item := l.queue[k];
        assert item in l.queue;
        QueueCostWithout(l.queue, k, cap);
        TaskCostSnoc(l.tasks, Task(item.m, posts));
        hide QueueCost, TaskCost, Without;
      }
    case TaskPosts(t, m) =>
      if t < |l.tasks| && l.tasks[t].left > 0 && m.fromApp {
        QueueCostSnoc(l.queue, MessageCopy(m), cap);
        TaskCostLess(l.tasks, t);
        hide QueueCost, TaskCost;
      }
  }

  /** Every one of these events does something. */
  predicate AllEffective(w: Wiring, moves: seq<Move>, more: seq<Move>) {
    forall n | 0 <= n < |more| :: Effective(w, moves + more[..n], more[n])
  }

  predicate Effective(w: Wiring, moves: seq<Move>, move: Move) {
    Step(w, Run(w, moves), move) != Run(w, moves)
  }

  /**
   * From any point of any run, the loop falls silent unless a person posts: at most `Energy` events, in
   * whatever order, can still do anything.
   */
  lemma {:induction false} LoopQuiesces(w: Wiring, moves: seq<Move>, more: seq<Move>, cap: nat)
    requires forall move | move in more :: Unprompted(move, cap)
    requires AllEffective(w, moves, more)
    ensures |more| + Energy(Run(w, moves + more), cap) <= Energy(Run(w, moves), cap)
    decreases |more|
  {
    hide Step, Energy;
    if more == [] {
      assert moves + more == moves;
    } else {
      var init, move := more[..|more| - 1], Last(more);
      assert move in more && Unprompted(move, cap) && Effective(w, moves + init, more[|init|]);
      forall n | 0 <= n < |init| ensures Effective(w, moves + init[..n], init[n]) {
        assert init[..n] == more[..n];
        assert Effective(w, moves + more[..n], more[n]);
      }
      LoopQuiesces(w, moves, init, cap);
      assert (moves + more)[..|moves + more| - 1] == moves + init;
      EnergyFalls(w, moves + init, move, cap);
    }
  }
}
