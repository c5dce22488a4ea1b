/**
 * `apps/server/src/session/threads.ts` between the two doors of `handler.ts` and `ingest.ts`: which replies
 * are answered without a mention, over everything that was ever activated in a channel.
 */
module FollowUps {
  import opened Base
  import opened Ingest

  /** One call of `activate`: when a task starts, and when it ends. */
  datatype Activity = Activity(thread: string, at: int, windowMs: int)

  /** A session's threads after these calls. */
  function Threads(acts: seq<Activity>): map<string, int> {
    if acts == [] then map[]
    else
      var a := Last(acts);
      Activated(Threads(acts[..|acts| - 1]), a.thread, a.at, a.windowMs)
  }

  /** The clock does not go back between the calls, nor from them to `later`. */
  predicate InTime(acts: seq<Activity>, later: int) {
    && (forall i, j | 0 <= i < j < |acts| :: acts[i].at <= acts[j].at)
    && forall a | a in acts :: a.at <= later
  }

  /** The thread's last call was the `k`th. */
  predicate LastFor(acts: seq<Activity>, k: nat, thread: string) {
    && k < |acts| && acts[k].thread == thread
    && forall j | k < j < |acts| :: acts[j].thread != thread
  }

  predicate Answerable(a: Activity, later: int) {
    a.windowMs > 0 && later < a.at + a.windowMs
  }

  /** Whatever else was activated or swept, a thread is active as long as its own last call said. */
  lemma {:induction false} ActiveIff(acts: seq<Activity>, thread: string, later: int)
    requires InTime(acts, later)
    ensures IsActive(Threads(acts), thread, later) <==>
            exists k: nat :: LastFor(acts, k, thread) && Answerable(acts[k], later)
    decreases |acts|
  {
    if acts != [] {
      var init, a := acts[..|acts| - 1], Last(acts);
      assert a in acts;
      ActiveIff(init, thread, later);
      if a.thread == thread {
        assert LastFor(acts, |init|, thread);
      } else {
        forall k: nat ensures LastFor(acts, k, thread) <==> LastFor(init, k, thread) {
          LastForInit(acts, k, thread);
        }
      }
    }
  }

  lemma LastForInit(acts: seq<Activity>, k: nat, thread: string)
    requires acts != [] && Last(acts).thread != thread
    ensures LastFor(acts, k, thread) <==> LastFor(acts[..|acts| - 1], k, thread)
  {
  }

  /**
   * A message without a mention becomes a request exactly when a person posted it in a thread whose last
   * task is within its window, and the request is for that thread.
   */
  lemma {:induction false} FollowUpIff(w: Wiring, acts: seq<Activity>, m: Message, later: int)
    requires InTime(acts, later)
    ensures Routed(w, Threads(acts), m, later).Some? <==>
            && w.route && !m.fromApp && !m.mentionsApp && m.threadTs.Some?
            && exists k: nat :: LastFor(acts, k, m.threadTs.value) && Answerable(acts[k], later)
    ensures
      var request := Routed(w, Threads(acts), m, later);
      request.Some? ==> exists k: nat :: LastFor(acts, k, request.value.thread) && Answerable(acts[k], later)
    // It asks what its author wrote, on its author's behalf, as a mention in the thread would.
    ensures
      var request := Routed(w, Threads(acts), m, later);
      request.Some? ==>
        && request.value.requestingUser == m.userId && request.value.text == m.text
        && request.value.traceId == m.eventId && request.value == MentionRequest(m)
  {
    if m.threadTs.Some? {
      ActiveIff(acts, m.threadTs.value, later);
    }
    hide Threads;
  }

  /**
   * The two doors meet: while the last task of a mention's thread is within its window, a message reaches
   * that thread through the second door exactly when it is a person's reply, without a mention, in the
   * mention's thread, or under the mention when that stands by itself.
   */
  lemma {:induction false} RepliesReachTheMention(
      w: Wiring, acts: seq<Activity>, k: nat, mention: Message, reply: Message, later: int)
    requires InTime(acts, later) && w.route
    requires LastFor(acts, k, MentionRequest(mention).thread) && Answerable(acts[k], later)
    ensures
      var request := Routed(w, Threads(acts), reply, later);
      request.Some? && request.value.thread == MentionRequest(mention).thread <==>
        && !reply.fromApp && !reply.mentionsApp && reply.threadTs.Some?
        && (reply.threadTs == mention.threadTs || (mention.threadTs == None && reply.threadTs == Some(mention.ts)))
  {
    FollowUpIff(w, acts, reply, later);
    hide Threads;
  }
}
