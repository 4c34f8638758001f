/**
 The token server: clients put their queue's name on one bounded request queue; the server takes
 the oldest, opens that client's queue, sends the next token and closes it again.
 */
module TokenModel {

  /** mq_maxmsg of the request queue and of each reply queue. */
  datatype Config = Config(requestSlots: nat, replySlots: nat)

  /** What a client is about to do. */
  datatype ClientPc =
    | Prompting  // fgets
    | Asking     // mq_send to the server
    | Waiting    // mq_receive on its own queue
    | Leaving    // mq_close and mq_unlink
    | Gone

  /**
   A client and its reply queue. History: the tokens it has received, and how many of its
   requests the server gave up on.
   */
  datatype Client = Client(pc: ClientPc, replies: seq<nat>, received: seq<nat>, lost: nat)

  /** What the server is about to do for the client it serves, with the descriptor it got. */
  datatype ServerPc =
    | Receiving                    // mq_receive(qd_server)
    | Opening(client: nat)         // mq_open(in_buffer), compared with 1
    | Sending(client: nat, qd: int) // mq_send(qd_client, token)
    | Closing(client: nat)         // mq_close, then token_number++

  datatype Answer = Answer(client: nat, token: nat)

  /**
   History: requests in order of arrival, for each request dealt with whether it was answered, the
   answers sent, and for each answer dealt with whether mq_close succeeded.
   */
  datatype State = State(
    requests: seq<nat>, clients: seq<Client>, server: ServerPc, token: nat,
    arrivals: seq<nat>, outcomes: seq<bool>, answers: seq<Answer>, closes: seq<bool>)

  /**
   `go` decides what the environment decides: a line or end of input for fgets, success or failure
   for a client's mq_send. For the server, `qd` is what mq_open returns and `fail` makes mq_send or
   mq_close fail.
   */
  datatype Action = ClientStep(c: nat, go: bool) | ServerStep(qd: int, fail: bool)

  function Initial(clients: nat): State {
    State([], seq(clients, c => Client(Prompting, [], [], 0)), Receiving, 1, [], [], [], [])
  }

  predicate Enabled(cfg: Config, s: State, a: Action) {
    match a
    case ClientStep(c, go) =>
      c < |s.clients| &&
      (match s.clients[c].pc
       case Asking => go ==> |s.requests| < cfg.requestSlots
       case Waiting => s.clients[c].replies != []
       case Gone => false
       case _ => true)
    case ServerStep(qd, fail) =>
      match s.server
      case Receiving => s.requests != []
      case Opening(c) => c < |s.clients| && (qd >= 0 ==> s.clients[c].pc != Gone)
      case Sending(c, q) => c < |s.clients| && (q >= 0 && !fail ==> |s.clients[c].replies| < cfg.replySlots)
      case Closing(_) => true
  }

  function StepClient(cfg: Config, s: State, c: nat, go: bool): State
    requires Enabled(cfg, s, ClientStep(c, go))
  {
    var me := s.clients[c];
    match me.pc
    case Prompting => s.(clients := s.clients[c := me.(pc := if go then Asking else Leaving)])
    case Asking =>
      if go then
        s.(clients := s.clients[c := me.(pc := Waiting)], requests := s.requests + [c], arrivals := s.arrivals + [c])
      else
        s.(clients := s.clients[c := me.(pc := Prompting)])
    case Waiting =>
      s.(clients := s.clients[c := me.(pc := Prompting, replies := me.replies[1..],
                                       received := me.received + [me.replies[0]])])
    case Leaving => s.(clients := s.clients[c := me.(pc := Gone)])
  }

  /** The server gives up on the request in hand. */
  function GiveUp(s: State, c: nat): State
    requires c < |s.clients|
  {
    s.(server := Receiving, outcomes := s.outcomes + [false],
       clients := s.clients[c := s.clients[c].(lost := s.clients[c].lost + 1)])
  }

  /**
   The open's result is compared with 1 and not with -1: a failed open goes on to a send that
   fails on the bad descriptor, and an open that returns 1 is given up as if it had failed.
   */
  function StepServer(cfg: Config, s: State, qd: int, fail: bool): State
    requires Enabled(cfg, s, ServerStep(qd, fail))
  {
    match s.server
    case Receiving => s.(server := Opening(s.requests[0]), requests := s.requests[1..])
    case Opening(c) => if qd == 1 then GiveUp(s, c) else s.(server := Sending(c, qd))
    case Sending(c, q) =>
      if q < 0 || fail then GiveUp(s, c)
      else
        s.(server := Closing(c), outcomes := s.outcomes + [true], answers := s.answers + [Answer(c, s.token)],
           clients := s.clients[c := s.clients[c].(replies := s.clients[c].replies + [s.token])])
    case Closing(_) =>
      s.(server := Receiving, token := if fail then s.token else s.token + 1, closes := s.closes + [!fail])
  }

  function Step(cfg: Config, s: State, a: Action): State
    requires Enabled(cfg, s, a)
  {
    match a
    case ClientStep(c, go) => StepClient(cfg, s, c, go)
    case ServerStep(qd, fail) => StepServer(cfg, s, qd, fail)
  }

  // ---------- The invariant ----------

  /** The client whose request the server holds and has not dealt with. */
  predicate InService(server: ServerPc, c: nat) {
    (server.Opening? || server.Sending?) && server.client == c
  }

  /** Where a client's outstanding request is: queued, in service, answered and unread, or lost. */
  function Outstanding(requests: seq<nat>, server: ServerPc, m: Client, c: nat): nat {
    multiset(requests)[c] + (if InService(server, c) then 1 else 0) + |m.replies| + m.lost
  }

  /** A waiting client has exactly one request somewhere, any other client none. */
  predicate ConservationOk(s: State) {
    && (forall c :: 0 <= c < |s.clients| ==>
          Outstanding(s.requests, s.server, s.clients[c], c) == if s.clients[c].pc == Waiting then 1 else 0)
    && (forall k :: 0 <= k < |s.requests| ==> s.requests[k] < |s.clients|)
    && (s.server.Opening? || s.server.Sending? ==> s.server.client < |s.clients|)
  }

  /** The number of requests the server has taken off the queue. */
  function Taken(s: State): nat {
    |s.outcomes| + if s.server.Opening? || s.server.Sending? then 1 else 0
  }

  /** The requests are those that arrived and were not taken, in order. */
  predicate QueueOk(cfg: Config, s: State) {
    && (forall r :: 0 <= r < |s.arrivals| ==> s.arrivals[r] < |s.clients|)
    && Taken(s) <= |s.arrivals|
    && s.requests == s.arrivals[Taken(s)..]
    && |s.requests| <= cfg.requestSlots
    && (s.server.Opening? || s.server.Sending? ==> s.server.client == s.arrivals[|s.outcomes|])
  }

  function Count(bs: seq<bool>): nat {
    if bs == [] then 0 else Count(bs[..|bs| - 1]) + if bs[|bs| - 1] then 1 else 0
  }

  /** Every answer carries one more than the number of successful closes before it. */
  predicate TokensOk(s: State) {
    && |s.closes| == |s.answers| - (if s.server.Closing? then 1 else 0)
    && s.token == 1 + Count(s.closes)
    && (forall k :: 0 <= k < |s.answers| ==> k <= |s.closes| && s.answers[k].token == 1 + Count(s.closes[..k]))
  }

  /** The arrivals whose outcome is an answer. */
  function Answered(arrivals: seq<nat>, outcomes: seq<bool>): seq<nat>
    requires |outcomes| <= |arrivals|
  {
    if outcomes == [] then []
    else
      var n := |outcomes| - 1;
      Answered(arrivals, outcomes[..n]) + if outcomes[n] then [arrivals[n]] else []
  }

  function ClientsOf(answers: seq<Answer>): seq<nat> {
    seq(|answers|, k requires 0 <= k < |answers| => answers[k].client)
  }

  /** Answers go to the answered requests, in order of arrival. */
  predicate OrderOk(s: State) {
    |s.outcomes| <= |s.arrivals| && ClientsOf(s.answers) == Answered(s.arrivals, s.outcomes)
  }

  /** The tokens answered to client c, in order. */
  function TokensFor(answers: seq<Answer>, c: nat): seq<nat> {
    if answers == [] then []
    else
      var last := answers[|answers| - 1];
      TokensFor(answers[..|answers| - 1], c) + if last.client == c then [last.token] else []
  }

  /** What a client has received or has in its queue is what it was answered. */
  predicate DeliveryOk(s: State) {
    && (forall c :: 0 <= c < |s.clients| ==> TokensFor(s.answers, c) == s.clients[c].received + s.clients[c].replies)
    && (forall k :: 0 <= k < |s.answers| ==> s.answers[k].client < |s.clients|)
  }

  /** The server gave up on a request of client c. */
  predicate GivenUp(s: State, c: nat) {
    exists r :: 0 <= r < |s.outcomes| && r < |s.arrivals| && s.arrivals[r] == c && !s.outcomes[r]
  }

  /** The clients that lost a request are those whose request was given up. */
  predicate LossOk(s: State) {
    forall c :: 0 <= c < |s.clients| ==> (s.clients[c].lost > 0 <==> GivenUp(s, c))
  }

  predicate Inv(cfg: Config, s: State) {
    && ConservationOk(s) && QueueOk(cfg, s) && TokensOk(s) && OrderOk(s) && DeliveryOk(s) && LossOk(s)
  }

  // ---------- Preservation ----------

  lemma InitialInv(cfg: Config, clients: nat)
    ensures Inv(cfg, Initial(clients))
  {
  }

  lemma HeadCount(requests: seq<nat>, c: nat)
    requires requests != []
    ensures multiset(requests)[c] == multiset(requests[1..])[c] + if requests[0] == c then 1 else 0
  {
    assert requests == [requests[0]] + requests[1..];
  }

  lemma ClientKeepsConservation(cfg: Config, s: State, c: nat, go: bool)
    requires ConservationOk(s) && Enabled(cfg, s, ClientStep(c, go))
    ensures ConservationOk(StepClient(cfg, s, c, go))
  {
  }

  lemma ServerKeepsConservation(cfg: Config, s: State, qd: int, fail: bool)
    requires ConservationOk(s) && Enabled(cfg, s, ServerStep(qd, fail))
    ensures ConservationOk(StepServer(cfg, s, qd, fail))
  {
    var t := StepServer(cfg, s, qd, fail);
    if s.server == Receiving {
      forall c | 0 <= c < |t.clients|
        ensures Outstanding(t.requests, t.server, t.clients[c], c) == Outstanding(s.requests, s.server, s.clients[c], c)
      {
        HeadCount(s.requests, c);
      }
    }
  }

  lemma StepKeepsQueue(cfg: Config, s: State, a: Action)
    requires QueueOk(cfg, s) && Enabled(cfg, s, a)
    ensures QueueOk(cfg, Step(cfg, s, a))
  {
  }

  lemma StepKeepsTokens(cfg: Config, s: State, a: Action)
    requires TokensOk(s) && Enabled(cfg, s, a)
    ensures TokensOk(Step(cfg, s, a))
  {
    var t := Step(cfg, s, a);
    if a.ServerStep? {
      assert s.closes[..|s.closes|] == s.closes;
      if s.server.Closing? {
        assert t.closes[..|s.closes|] == s.closes;
        assert forall k :: 0 <= k <= |s.closes| ==> t.closes[..k] == s.closes[..k];
      }
    }
  }

  lemma {:induction false} AnsweredExtends(arrivals: seq<nat>, c: nat, outcomes: seq<bool>)
    requires |outcomes| <= |arrivals|
    ensures Answered(arrivals + [c], outcomes) == Answered(arrivals, outcomes)
    decreases |outcomes|
  {
    if outcomes != [] {
      AnsweredExtends(arrivals, c, outcomes[..|outcomes| - 1]);
    }
  }

  lemma StepKeepsOrder(cfg: Config, s: State, a: Action)
    requires OrderOk(s) && QueueOk(cfg, s) && Enabled(cfg, s, a)
    ensures OrderOk(Step(cfg, s, a))
  {
    var t := Step(cfg, s, a);
    if a.ClientStep? {
      AnsweredExtends(s.arrivals, a.c, s.outcomes);
    } else if t.outcomes != s.outcomes {
      assert t.outcomes[..|s.outcomes|] == s.outcomes;
      if t.answers != s.answers {
        assert ClientsOf(t.answers) == ClientsOf(s.answers) + [s.server.client];
      }
    }
  }

  lemma StepKeepsDelivery(cfg: Config, s: State, a: Action)
    requires DeliveryOk(s) && ConservationOk(s) && Enabled(cfg, s, a)
    ensures DeliveryOk(Step(cfg, s, a))
  {
    var t := Step(cfg, s, a);
    if a.ServerStep? && t.answers != s.answers {
      assert t.answers[..|s.answers|] == s.answers;
      var c := s.server.client;
      assert t.clients[c].received + t.clients[c].replies == s.clients[c].received + s.clients[c].replies + [s.token];
    }
    if a.ClientStep? && s.clients[a.c].pc == Waiting {
      assert t.clients[a.c].received + t.clients[a.c].replies == s.clients[a.c].received + s.clients[a.c].replies;
    }
  }

  lemma GivingUpIsRecorded(s: State, t: State, c: nat, d: nat)
    requires |s.outcomes| < |s.arrivals| && s.arrivals[|s.outcomes|] == c
    requires t.arrivals == s.arrivals && t.outcomes == s.outcomes + [false]
    ensures GivenUp(t, d) <==> GivenUp(s, d) || d == c
  {
    if GivenUp(s, d) {
      var r :| 0 <= r < |s.outcomes| && s.arrivals[r] == d && !s.outcomes[r];
      assert t.arrivals[r] == d && !t.outcomes[r];
    }
    assert t.arrivals[|s.outcomes|] == c && !t.outcomes[|s.outcomes|];
  }

  lemma NothingGivenUp(s: State, t: State, d: nat)
    requires |s.outcomes| <= |s.arrivals| && s.arrivals <= t.arrivals
    requires t.outcomes == s.outcomes || t.outcomes == s.outcomes + [true]
    ensures GivenUp(t, d) <==> GivenUp(s, d)
  {
    if GivenUp(s, d) {
      var r :| 0 <= r < |s.outcomes| && s.arrivals[r] == d && !s.outcomes[r];
      assert t.arrivals[r] == d && !t.outcomes[r];
    }
    if GivenUp(t, d) {
      var r :| 0 <= r < |t.outcomes| && r < |t.arrivals| && t.arrivals[r] == d && !t.outcomes[r];
      assert r < |s.outcomes| && s.arrivals[r] == d;
    }
  }

  lemma StepKeepsLoss(cfg: Config, s: State, a: Action)
    requires LossOk(s) && QueueOk(cfg, s) && Enabled(cfg, s, a)
    ensures LossOk(Step(cfg, s, a))
  {
    var t := Step(cfg, s, a);
    hide GivenUp;
    forall c | 0 <= c < |t.clients| ensures t.clients[c].lost > 0 <==> GivenUp(t, c) {
      if t.outcomes == s.outcomes + [false] {
        GivingUpIsRecorded(s, t, s.server.client, c);
      } else {
        NothingGivenUp(s, t, c);
      }
    }
  }

  /** Every step of the server and of any client, failing or not, keeps the invariant. */
  lemma StepKeepsInv(cfg: Config, s: State, a: Action)
    requires Inv(cfg, s) && Enabled(cfg, s, a)
    ensures Inv(cfg, Step(cfg, s, a)) && |Step(cfg, s, a).clients| == |s.clients|
  {
    hide ConservationOk, QueueOk, TokensOk, OrderOk, DeliveryOk, LossOk;
    match a {
      case ClientStep(c, go) => ClientKeepsConservation(cfg, s, c, go);
      case ServerStep(qd, fail) => ServerKeepsConservation(cfg, s, qd, fail);
    }
    StepKeepsQueue(cfg, s, a);
    StepKeepsTokens(cfg, s, a);
    StepKeepsOrder(cfg, s, a);
    StepKeepsDelivery(cfg, s, a);
    StepKeepsLoss(cfg, s, a);
  }
}
