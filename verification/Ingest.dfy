/**
 * `apps/server/src/ingest.ts` and `handler.ts`: a Slack message is filed and sometimes answered, a
 * revision is mirrored, a mention is always answered.
 */
module Ingest {
  import opened Base

  datatype Message = Message(
    ts: string, threadTs: Option<string>, userId: string, text: string,
    mentionsApp: bool, fromApp: bool, eventId: string)

  datatype Revision = Deleted(ts: string) | Edited(ts: string, text: string)

  datatype Row = Row(threadTs: Option<string>, userId: string, displayName: Option<string>, text: string, at: int)

  /** Two tables: people's messages, and the app's own replies. */
  datatype Tables = Tables(messages: map<string, Row>, replies: map<string, Row>)

  datatype Request = Request(requestingUser: string, thread: string, text: string, traceId: string)

  datatype Pass = Summarize | EmbedSkills | LifecycleSkills | CurateSkills

  /** Which optional collaborators this deployment has wired. */
  datatype Wiring = Wiring(route: bool, summarize: bool, embedSkills: bool, lifecycleSkills: bool, curateSkills: bool)

  // ---------------------------------------------------------------------------
  // What each event does.
  // ---------------------------------------------------------------------------

  /** The first write of a `ts` wins; a later one changes nothing. */
  function Inserted(table: map<string, Row>, ts: string, row: Row): map<string, Row> {
    if ts in table then table else table[ts := row]
  }

  function Filed(t: Tables, m: Message, displayName: Option<string>, at: int): Tables {
    var row := Row(m.threadTs, m.userId, displayName, m.text, at);
    if m.fromApp then t.(replies := Inserted(t.replies, m.ts, row))
    else t.(messages := Inserted(t.messages, m.ts, row))
  }

  function Revised(t: Tables, r: Revision): Tables {
    match r
    case Deleted(ts) =>
      if ts in t.messages then t.(messages := t.messages - {ts}) else t.(replies := t.replies - {ts})
    case Edited(ts, text) =>
      if ts in t.messages then t.(messages := t.messages[ts := t.messages[ts].(text := text)])
      else if ts in t.replies then t.(replies := t.replies[ts := t.replies[ts].(text := text)])
      else t
  }

  /** `activate`: what has expired is swept, and a window of nothing deactivates. */
  function Activated(until: map<string, int>, thread: string, at: int, windowMs: int): map<string, int> {
    var swept := map t | t in until && !(until[t] <= at) :: until[t];
    if windowMs <= 0 then swept - {thread} else swept[thread := at + windowMs]
  }

  predicate IsActive(until: map<string, int>, thread: string, at: int) {
    thread in until && until[thread] > at
  }

  /** The four conditions on the way to answering a message that is not a mention. */
  predicate Follows(w: Wiring, m: Message, active: bool) {
    !m.fromApp && w.route && m.threadTs.Some? && !m.mentionsApp && active
  }

  function Passes(w: Wiring): seq<Pass> {
    (if w.summarize then [Summarize] else []) + (if w.embedSkills then [EmbedSkills] else [])
    + (if w.lifecycleSkills then [LifecycleSkills] else []) + (if w.curateSkills then [CurateSkills] else [])
  }

  /** Whether the deployment has a pass, and its place in the stated order. */
  function PassOf(w: Wiring, p: Pass): (bool, nat) {
    match p
    case Summarize => (w.summarize, 1)
    case EmbedSkills => (w.embedSkills, 2)
    case LifecycleSkills => (w.lifecycleSkills, 3)
    case CurateSkills => (w.curateSkills, 4)
  }

  /** Exactly the passes there are, once each: the sweep, the embedding, the lifecycle, and last the curator. */
  lemma PassesInOrder(w: Wiring)
    ensures PassesUpTo(w, Passes(w), 5)
  {
    assert PassesUpTo(w, [], 1);
    var first := Queued([], w.summarize, Summarize);
    var second := Queued(first, w.embedSkills, EmbedSkills);
    var third := Queued(second, w.lifecycleSkills, LifecycleSkills);
    OneByOne(w);
    OnePass(w, [], w.summarize, Summarize);
    OnePass(w, first, w.embedSkills, EmbedSkills);
    OnePass(w, second, w.lifecycleSkills, LifecycleSkills);
    OnePass(w, third, w.curateSkills, CurateSkills);
    hide Passes, Queued, PassesUpTo;
  }

  function Queued(passes: seq<Pass>, wired: bool, p: Pass): seq<Pass> {
    passes + (if wired then [p] else [])
  }

  lemma OneByOne(w: Wiring)
    ensures Passes(w) ==
            Queued(Queued(Queued(Queued([], w.summarize, Summarize), w.embedSkills, EmbedSkills),
                          w.lifecycleSkills, LifecycleSkills), w.curateSkills, CurateSkills)
  {
    var a := if w.summarize then [Summarize] else [];
    assert [] + a == a;
  }

  /** In order, and exactly those that are wired and come before the `n`th place; there are four places. */
  predicate PassesUpTo(w: Wiring, passes: seq<Pass>, n: nat) {
    && (forall p :: p in passes <==> PassOf(w, p).0 && PassOf(w, p).1 < n)
    && forall i, j | 0 <= i < j < |passes| :: PassOf(w, passes[i]).1 < PassOf(w, passes[j]).1
  }

  lemma OnePass(w: Wiring, passes: seq<Pass>, wired: bool, p: Pass)
    requires PassesUpTo(w, passes, PassOf(w, p).1) && PassOf(w, p).0 == wired
    ensures PassesUpTo(w, Queued(passes, wired, p), PassOf(w, p).1 + 1)
  {
    if wired {
      assert (passes + [p])[|passes|] == p;
    } else {
      assert passes + [] == passes;
    }
  }

  /** `createMentionHandler`: a mention is always routed; its thread is already coalesced to its own `ts`. */
  function MentionRequest(m: Message): Request {
    Request(m.userId, m.threadTs.UnwrapOr(m.ts), m.text, m.eventId)
  }

  /** What a follow-up that is answered asks for. */
  function FollowUpRequest(m: Message): Request
    requires m.threadTs.Some?
  {
    Request(m.userId, m.threadTs.value, m.text, m.eventId)
  }

  /** The request a message becomes, if it becomes one. */
  function Routed(w: Wiring, until: map<string, int>, m: Message, at: int): Option<Request> {
    if m.threadTs.Some? && Follows(w, m, IsActive(until, m.threadTs.value, at)) then Some(FollowUpRequest(m)) else None
  }

  // ---------------------------------------------------------------------------
  // The handlers.
  // ---------------------------------------------------------------------------

  /** One channel's session: its store when there is one, its active threads, its queue of passes. */
  class Session {
    const hasStore: bool
    var messages: map<string, Row>
    var replies: map<string, Row>
    var until: map<string, int>
    var queue: seq<Pass>

    function Store(): Tables
      reads this
    {
      Tables(messages, replies)
    }

    constructor (hasStore: bool)
      ensures Store() == Tables(map[], map[]) && until == map[] && queue == [] && this.hasStore == hasStore
    {
      this.hasStore := hasStore;
      messages, replies, until, queue := map[], map[], map[], [];
    }

    /** `append`: false for a `ts` that is already stored. */
    method Append(ts: string, row: Row) returns (added: bool)
      modifies this`messages
      ensures added <==> ts !in old(messages)
      ensures messages == Inserted(old(messages), ts, row)
    {
      added := ts !in messages;
      if added { messages := messages[ts := row]; }
    }

    method AppendAgentReply(ts: string, row: Row) returns (added: bool)
      modifies this`replies
      ensures added <==> ts !in old(replies)
      ensures replies == Inserted(old(replies), ts, row)
    {
      added := ts !in replies;
      if added { replies := replies[ts := row]; }
    }

    /** `remove` reaches both tables: the second one when the first held no such row. */
    method Remove(ts: string) returns (removed: bool)
      modifies this`messages, this`replies
      ensures removed <==> ts in old(messages) || ts in old(replies)
      ensures Store() == Revised(old(Store()), Deleted(ts))
    {
      if ts in messages {
        messages := messages - {ts};
        return true;
      }
      removed := ts in replies;
      replies := replies - {ts};
    }

    /** `replaceText`: an edit is not a way in. */
    method ReplaceText(ts: string, text: string) returns (replaced: bool)
      modifies this`messages, this`replies
      ensures replaced <==> ts in old(messages) || ts in old(replies)
      ensures Store() == Revised(old(Store()), Edited(ts, text))
    {
      if ts in messages {
        messages := messages[ts := messages[ts].(text := text)];
        return true;
      }
      if ts in replies {
        replies := replies[ts := replies[ts].(text := text)];
        return true;
      }
      replaced := false;
    }

    method Activate(thread: string, at: int, windowMs: int)
      modifies this`until
      ensures until == Activated(old(until), thread, at, windowMs)
      ensures forall t, later | at <= later ::
                IsActive(until, t, later) <==>
                if t == thread then windowMs > 0 && later < at + windowMs else IsActive(old(until), t, later)
    {
      until := map t | t in until && !(until[t] <= at) :: until[t];
      if windowMs <= 0 {
        until := until - {thread};
      } else {
        until := until[thread := at + windowMs];
      }
    }

    /** The passes a filed message queues on the session's mutex, in their stated order. */
    method QueuePasses(w: Wiring)
      modifies this`queue
      ensures queue == old(queue) + Passes(w)
    {
      if w.summarize { queue := queue + [Summarize]; }
      if w.embedSkills { queue := queue + [EmbedSkills]; }
      if w.lifecycleSkills { queue := queue + [LifecycleSkills]; }
      if w.curateSkills { queue := queue + [CurateSkills]; }
    }

    /**
     * The message handler from the end of its one `await` on: the author's name is known, or there is
     * none. `fails`: the store's write throws.
     */
    method OnMessage(w: Wiring, m: Message, displayName: Option<string>, now: int, fails: bool)
      returns (request: Option<Request>)
      modifies this
      ensures Store() == (if hasStore && !fails then Filed(old(Store()), m, displayName, now) else old(Store()))
      ensures queue == old(queue) + (if hasStore then Passes(w) else [])
      ensures until == old(until)
      ensures request == Routed(w, until, m, now)
    {
      if hasStore {
        // try
        if !fails {
          var row := Row(m.threadTs, m.userId, displayName, m.text, now);
          if m.fromApp {
            var _ := AppendAgentReply(m.ts, row);
          } else {
            var _ := Append(m.ts, row);
          }
        }
        QueuePasses(w);
      }
      if m.fromApp { return None; }
      if !w.route || m.threadTs == None { return None; }
      if m.mentionsApp { return None; }
      if !IsActive(until, m.threadTs.value, now) { return None; }
      request := Some(Request(m.userId, m.threadTs.value, m.text, m.eventId));
    }

    /** `createRevisionIngest`. */
    method OnRevision(r: Revision, fails: bool)
      modifies this`messages, this`replies
      ensures Store() == if hasStore && !fails then Revised(old(Store()), r) else old(Store())
    {
      if !hasStore || fails { return; }
      match r {
        case Deleted(ts) => var _ := Remove(ts);
        case Edited(ts, text) => var _ := ReplaceText(ts, text);
      }
    }
  }
}
