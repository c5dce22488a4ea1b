/** `apps/runner/src/hop-server.ts`: what the hop answers to each CONNECT, and its one-way latch. */
module HopServer {
  import opened Base
  import opened Authority

  /** What the sheet allows; the matcher itself is not part of this model. */
  type Policy = (string, seq<string>) -> bool

  /** One line of the hop's standard output; `Other` is any line that is neither event. */
  datatype Line = Listening | Denied(host: string) | Other

  /** `tunnels` is a history: the destinations dialled, oldest first. */
  datatype HopState = HopState(listening: bool, denied: bool, log: seq<Line>, tunnels: seq<Target>)

  datatype Answer = Forbidden | BadRequest | Dialled

  predicate Permitted(host: string, allow: seq<string>, policy: Policy) {
    !IsForbiddenAddress(host) && policy(host, allow)
  }

  function OnConnect(h: HopState, target: string, allow: seq<string>, policy: Policy): (HopState, Answer) {
    if h.denied then (h, Forbidden)
    else
      match ParseAuthority(target)
      case None => (h, BadRequest)
      case Some(t) =>
        if !Permitted(t.host, allow, policy) then (h.(denied := true, log := h.log + [Denied(t.host)]), Forbidden)
        // The brackets come off for the dial only.
        else (h.(tunnels := h.tunnels + [Target(StripBrackets(t.host), t.port)]), Dialled)
  }

  function OnListen(h: HopState): HopState {
    if h.listening then h else h.(listening := true, log := h.log + [Listening])
  }

  /** The hop as `createHop` keeps it: the latch is its only variable. */
  class Hop {
    const allow: seq<string>
    const policy: Policy
    var denied: bool
    var log: seq<Line>
    var tunnels: seq<Target>

    function State(listening: bool): HopState
      reads this
    {
      HopState(listening, denied, log, tunnels)
    }

    constructor (allow: seq<string>, policy: Policy)
      ensures State(false) == HopState(false, false, [], []) && this.allow == allow && this.policy == policy
    {
      this.allow, this.policy := allow, policy;
      denied, log, tunnels := false, [], [];
    }

    method Connect(target: string) returns (answer: Answer)
      modifies this
      ensures (State(true), answer) == OnConnect(old(State(true)), target, allow, policy)
    {
      if denied {
        return Forbidden;
      }
      var parsed := ParseAuthority(target);
      if parsed == None {
        return BadRequest;
      }
      var host := parsed.value.host;
      if IsForbiddenAddress(host) || !policy(host, allow) {
        denied := true;
        log := log + [Denied(host)];
        return Forbidden;
      }
      tunnels := tunnels + [Target(StripBrackets(host), parsed.value.port)];
      answer := Dialled;
    }
  }

  // ---------------------------------------------------------------------------
  // Over any sequence of requests.
  // ---------------------------------------------------------------------------

  function Connects(h: HopState, targets: seq<string>, allow: seq<string>, policy: Policy): HopState {
    if targets == [] then h
    else OnConnect(Connects(h, targets[..|targets| - 1], allow, policy), Last(targets), allow, policy).0
  }

  /** A target that ends the run: it names a destination, and not a permitted one. */
  predicate Ends(target: string, allow: seq<string>, policy: Policy) {
    var t := ParseAuthority(target);
    t.Some? && !Permitted(t.value.host, allow, policy)
  }

  /** The requests before the first that ends the run. */
  function Served(targets: seq<string>, allow: seq<string>, policy: Policy): (n: nat)
    ensures n <= |targets|
  {
    if targets == [] then 0
    else
      var n := Served(targets[..|targets| - 1], allow, policy);
      if n < |targets| - 1 || Ends(Last(targets), allow, policy) then n else n + 1
  }

  lemma {:induction false} ServedIs(targets: seq<string>, allow: seq<string>, policy: Policy)
    ensures
      var n := Served(targets, allow, policy);
      && (forall k | 0 <= k < n :: !Ends(targets[k], allow, policy))
      && (n < |targets| ==> Ends(targets[n], allow, policy))
  {
    hide Ends;
    if targets != [] {
      ServedIs(targets[..|targets| - 1], allow, policy);
    }
  }

  /** The well-formed targets among some requests, as they are dialled. */
  function Destinations(targets: seq<string>): seq<Target> {
    if targets == [] then []
    else
      Destinations(targets[..|targets| - 1]) +
      (match ParseAuthority(Last(targets)) case None => [] case Some(t) => [Target(StripBrackets(t.host), t.port)])
  }

  function HostOf(target: string): string {
    match ParseAuthority(target) case None => "" case Some(t) => t.host
  }

  const FRESH := HopState(true, false, [Listening], [])

  lemma ConnectCases(h: HopState, target: string, allow: seq<string>, policy: Policy)
    ensures
      var h' := OnConnect(h, target, allow, policy).0;
      if h.denied then h' == h
      else if Ends(target, allow, policy) then h' == h.(denied := true, log := h.log + [Denied(HostOf(target))])
      else h' == h.(tunnels := h.tunnels + (match ParseAuthority(target)
                                             case None => []
                                             case Some(t) => [Target(StripBrackets(t.host), t.port)]))
  {
    hide ParseAuthority, IsForbiddenAddress, StripBrackets;
  }

  /** What the hop has done once `n` of the requests were served and the next one, if any, ended the run. */
  predicate Account(h: HopState, targets: seq<string>, n: nat)
    requires n <= |targets|
  {
    && h.tunnels == Destinations(targets[..n])
    && (h.denied <==> n < |targets|)
    && h.log == (if n < |targets| then [Listening, Denied(HostOf(targets[n]))] else [Listening])
  }

  lemma AccountGrows(h: HopState, init: seq<string>, n: nat, target: string, allow: seq<string>, policy: Policy)
    requires n <= |init| && Account(h, init, n)
    ensures
      var n' := if n < |init| || Ends(target, allow, policy) then n else n + 1;
      Account(OnConnect(h, target, allow, policy).0, init + [target], n')
  {
    ConnectCases(h, target, allow, policy);
    hide ParseAuthority, Ends, OnConnect, HostOf, StripBrackets;
    var targets := init + [target];
    assert targets[..n] == init[..n] && targets[..|targets|] == targets && targets[..|init|] == init;
    if n < |init| {
      assert targets[n] == init[n];
    } else if Ends(target, allow, policy) {
      assert targets[n] == target;
    }
  }

  /**
   * Whatever is asked and in whatever order: the hop dials exactly the well-formed destinations asked for
   * before the first that is not permitted, none after it, and announces that one host and nothing else.
   */
  lemma {:induction false} ServesUntilFirstDenial(targets: seq<string>, allow: seq<string>, policy: Policy)
    ensures
      var h, n := Connects(FRESH, targets, allow, policy), Served(targets, allow, policy);
      && h.tunnels == Destinations(targets[..n])
      && (h.denied <==> n < |targets|)
      && h.log == (if n < |targets| then [Listening, Denied(HostOf(targets[n]))] else [Listening])
  {
    hide ParseAuthority, OnConnect, HostOf, Ends;
    if targets != [] {
      var init := targets[..|targets| - 1];
      ServesUntilFirstDenial(init, allow, policy);
      var h, n := Connects(FRESH, init, allow, policy), Served(init, allow, policy);
      AccountGrows(h, init, n, Last(targets), allow, policy);
      assert init + [Last(targets)] == targets;
    }
  }

  /**
   * What ends a run: a well-formed request for a host that the sheet does not allow, or whose address no sheet
   * may reach, in whatever letter case and with or without brackets.
   */
  lemma EndsIff(target: string, allow: seq<string>, policy: Policy)
    ensures Ends(target, allow, policy) <==>
            exists t :: ParseAuthority(target) == Some(t)
                        && (!policy(t.host, allow) || ForbiddenForm(StripBrackets(t.host)))
  {
    hide ParseAuthority, StripBrackets, ForbiddenForm, IsForbiddenAddress;
    if ParseAuthority(target).Some? {
      var t := ParseAuthority(target).value;
      ParsedIsSpelled(target, t);
      ParsedForbiddenIff(t.host);
    }
  }

  /** What the client is told: that it is connected exactly when its destination was dialled, and only then. */
  lemma AnswerMeans(h: HopState, target: string, allow: seq<string>, policy: Policy)
    ensures
      var (h', answer) := OnConnect(h, target, allow, policy);
      && (answer == Forbidden <==> h'.denied)
      && (answer == BadRequest <==> !h.denied && ParseAuthority(target) == None)
      && (answer == Dialled <==> |h'.tunnels| == |h.tunnels| + 1)
      && (answer != Dialled ==> h'.tunnels == h.tunnels)
      && (h'.denied <==> h.denied || Ends(target, allow, policy))
      && (h'.log != h.log ==> !h.denied && h'.denied)
  {
    hide ParseAuthority, IsForbiddenAddress;
  }

  lemma {:induction false} ServedOfPrefix(targets: seq<string>, i: nat, allow: seq<string>, policy: Policy)
    requires i <= |targets|
    ensures
      var n := Served(targets, allow, policy);
      Served(targets[..i], allow, policy) == if n < i then n else i
    decreases |targets|
  {
    hide Ends;
    if i == |targets| {
      assert targets[..i] == targets;
    } else {
      var init := targets[..|targets| - 1];
      ServedOfPrefix(init, i, allow, policy);
      assert init[..i] == targets[..i];
    }
  }

  /**
   * What each client is told, whatever was asked before: until the first request that ends the run it is
   * connected if its target is well formed and otherwise told so; from then on everybody is refused.
   */
  lemma AnswersUntilFirstDenial(targets: seq<string>, i: nat, allow: seq<string>, policy: Policy)
    requires i < |targets|
    ensures OnConnect(Connects(FRESH, targets[..i], allow, policy), targets[i], allow, policy).1 ==
            if i >= Served(targets, allow, policy) then Forbidden
            else if ParseAuthority(targets[i]).Some? then Dialled
            else BadRequest
  {
    ServesUntilFirstDenial(targets[..i], allow, policy);
    ServedOfPrefix(targets, i, allow, policy);
    ServedIs(targets, allow, policy);
    hide ParseAuthority, Connects, Served, IsForbiddenAddress, StripBrackets;
  }

  /** So every destination dialled was one the sheet allows and no forbidden address, however it was asked for. */
  lemma {:induction false} DialledWasPermitted(targets: seq<string>, allow: seq<string>, policy: Policy, t: Target)
    requires t in Connects(FRESH, targets, allow, policy).tunnels
    ensures !ForbiddenForm(t.host) && '[' !in t.host && ']' !in t.host
    ensures exists k | 0 <= k < |targets| && ParseAuthority(targets[k]).Some? ::
              var asked := ParseAuthority(targets[k]).value;
              && policy(asked.host, allow) && asked.port == t.port
              && (asked.host == t.host || asked.host == "[" + t.host + "]")
  {
    var n := Served(targets, allow, policy);
    ServesUntilFirstDenial(targets, allow, policy);
    ServedIs(targets, allow, policy);
    var k := DestinationOf(targets[..n], t);
    hide ParseAuthority, Connects;
    assert targets[..n][k] == targets[k] && !Ends(targets[k], allow, policy);
    var asked := ParseAuthority(targets[k]).value;
    ParsedIsSpelled(targets[k], asked);
    ParsedForbiddenIff(asked.host);
    hide IsForbiddenAddress, ForbiddenForm, PlainHost;
    StrippedIs(asked.host);
  }

  lemma StrippedIs(host: string)
    ensures host == StripBrackets(host) || host == "[" + StripBrackets(host) + "]" || host == "["
  {
  }

  lemma {:induction false} DestinationOf(targets: seq<string>, t: Target) returns (k: nat)
    requires t in Destinations(targets)
    ensures k < |targets| && ParseAuthority(targets[k]).Some?
    ensures t == Target(StripBrackets(ParseAuthority(targets[k]).value.host), ParseAuthority(targets[k]).value.port)
  {
    hide ParseAuthority, StripBrackets;
    var init := targets[..|targets| - 1];
    if t in Destinations(init) {
      k := DestinationOf(init, t);
    } else {
      k := |targets| - 1;
    }
  }
}
