/** What one call of a client or of the server does, when it blocks, and how a client ends. */
module TokenTurns {
  import opened TokenModel
  import opened TokenRuns

  // ---------- Blocking ----------

  /**
   A party is held up by the queue it is calling on and by nothing else: a client by a full request
   queue or by its own empty reply queue, the server by an empty request queue or by a full reply
   queue, which the invariant leaves empty.
   */
  lemma BlockedByOwnQueue(cfg: Config, s: State, a: Action)
    requires Inv(cfg, s)
    ensures Try(cfg, s, a) == s <==>
            match a
            case ClientStep(c, go) =>
              || c >= |s.clients|
              || s.clients[c].pc == Gone
              || (s.clients[c].pc == Asking && go && |s.requests| >= cfg.requestSlots)
              || (s.clients[c].pc == Waiting && s.clients[c].replies == [])
            case ServerStep(_, fail) =>
              || (s.server == Receiving && s.requests == [])
              || (s.server.Sending? && s.server.qd >= 0 && !fail && cfg.replySlots == 0)
  {
    if a.ServerStep? && (s.server.Opening? || s.server.Sending?) {
      ServedClientWaits(cfg, s);
    }
    hide Inv, Step;
    if Enabled(cfg, s, a) {
      EnabledMoves(cfg, s, a);
    }
  }

  lemma ServedClientWaits(cfg: Config, s: State)
    requires Inv(cfg, s) && (s.server.Opening? || s.server.Sending?)
    ensures s.server.client < |s.clients|
    ensures s.clients[s.server.client].pc == Waiting && s.clients[s.server.client].replies == []
  {
    var c := s.server.client;
    hide QueueOk, TokensOk, OrderOk, DeliveryOk, LossOk;
    assert Outstanding(s.requests, s.server, s.clients[c], c) >= 1 + |s.clients[c].replies|;
  }

  lemma EnabledMoves(cfg: Config, s: State, a: Action)
    requires Enabled(cfg, s, a)
    ensures Step(cfg, s, a) != s
  {
    if a.ClientStep? {
      assert Step(cfg, s, a).clients[a.c].pc != s.clients[a.c].pc;
    } else {
      assert Step(cfg, s, a).server != s.server;
    }
  }

  /** n clients have asked and the server has not run. */
  ghost predicate Queued(cfg: Config, s: State, n: nat) {
    && Inv(cfg, s) && n <= |s.clients| && |s.requests| == n && s.server == Receiving
    && (forall c :: n <= c < |s.clients| ==> s.clients[c].pc == Prompting)
  }

  /** The next client reads a line and asks. */
  lemma OneMoreAsks(cfg: Config, s: State, n: nat)
    requires Queued(cfg, s, n) && n < |s.clients| && n < cfg.requestSlots
    ensures Queued(cfg, Try(cfg, Try(cfg, s, ClientStep(n, true)), ClientStep(n, true)), n + 1)
  {
    hide Inv;
    var t := Try(cfg, s, ClientStep(n, true));
    assert t == s.(clients := s.clients[n := s.clients[n].(pc := Asking)]);
    var u := Try(cfg, t, ClientStep(n, true));
    assert u.requests == s.requests + [n];
  }

  lemma NoTurns(cfg: Config, s: State)
    requires Inv(cfg, s)
    ensures Exec(cfg, s, []) == s
  {
  }

  lemma ExecTwice(cfg: Config, s: State, u: seq<Action>, a: Action)
    requires Inv(cfg, s)
    ensures Exec(cfg, s, u + [a] + [a]) == Try(cfg, Try(cfg, Exec(cfg, s, u), a), a)
  {
    hide Inv, Try, Exec;
    ExecSnoc(cfg, s, u, a);
    ExecSnoc(cfg, s, u + [a], a);
  }

  /** Every client asks, one after the other, until the queue is full or all have. */
  lemma {:induction false} FillQueue(cfg: Config, s: State, n: nat) returns (schedule: seq<Action>)
    requires Queued(cfg, s, 0) && n <= |s.clients| && n <= cfg.requestSlots
    ensures Queued(cfg, Exec(cfg, s, schedule), n)
  {
    assert Inv(cfg, s);
    hide Inv, Try, Exec, Queued;
    if n == 0 {
      NoTurns(cfg, s);
      schedule := [];
    } else {
      var before := FillQueue(cfg, s, n - 1);
      var ask := ClientStep(n - 1, true);
      OneMoreAsks(cfg, Exec(cfg, s, before), n - 1);
      ExecTwice(cfg, s, before, ask);
      schedule := before + [ask] + [ask];
    }
  }

  lemma NextOneBlocks(cfg: Config, s: State, n: nat)
    requires Queued(cfg, s, n) && n == cfg.requestSlots && n < |s.clients|
    ensures
      var t := Try(cfg, s, ClientStep(n, true));
      t.requests == s.requests && t.clients[n].pc == Asking && Try(cfg, t, ClientStep(n, true)) == t
  {
    hide Inv;
  }

  /** With more clients than slots some run fills the request queue, and the next client blocks. */
  lemma QueueFills(cfg: Config, clients: nat) returns (schedule: seq<Action>)
    requires clients > cfg.requestSlots
    ensures Inv(cfg, Initial(clients))
    ensures
      var s := Exec(cfg, Initial(clients), schedule);
      && |s.requests| == cfg.requestSlots && |s.clients| == clients
      && s.clients[cfg.requestSlots].pc == Asking && Try(cfg, s, ClientStep(cfg.requestSlots, true)) == s
  {
    InitialInv(cfg, clients);
    assert Queued(cfg, Initial(clients), 0);
    hide Inv, Try, Exec, Initial, Queued;
    var ask := ClientStep(cfg.requestSlots, true);
    var before := FillQueue(cfg, Initial(clients), cfg.requestSlots);
    NextOneBlocks(cfg, Exec(cfg, Initial(clients), before), cfg.requestSlots);
    ExecSnoc(cfg, Initial(clients), before, ask);
    schedule := before + [ask];
  }

  // ---------- A client's loop ----------

  /**
   One round of the client: a line read, the request put on the queue, the reply taken off its own;
   then it prompts again with the token received. Nothing else of the client changes.
   */
  lemma ClientRound(cfg: Config, s: State, c: nat)
    requires Inv(cfg, s) && c < |s.clients|
    ensures
      var me, t := s.clients[c], Try(cfg, s, ClientStep(c, true));
      && (forall d :: 0 <= d < |s.clients| && d != c ==> t.clients[d] == s.clients[d]) && t.server == s.server
      && (me.pc == Prompting ==> t.clients[c] == me.(pc := Asking) && t.arrivals == s.arrivals)
      && (me.pc == Asking && |s.requests| < cfg.requestSlots ==>
            t.clients[c] == me.(pc := Waiting) && t.arrivals == s.arrivals + [c] && t.requests == s.requests + [c])
      && (me.pc == Waiting && me.replies != [] ==>
            && t.clients[c].pc == Prompting && t.arrivals == s.arrivals
            && t.clients[c].received == me.received + [me.replies[0]] && t.clients[c].replies == me.replies[1..])
  {
    hide Inv;
  }

  /** A send that fails leaves the queue alone and the client at its prompt, able to ask again. */
  lemma FailedSendAsksAgain(cfg: Config, s: State, c: nat)
    requires Inv(cfg, s) && c < |s.clients| && s.clients[c].pc == Asking
    ensures
      var t := Try(cfg, s, ClientStep(c, false));
      && t.requests == s.requests && t.arrivals == s.arrivals && t.clients[c].pc == Prompting
      && Try(cfg, t, ClientStep(c, true)) == s
  {
    hide Inv;
    var t := Try(cfg, s, ClientStep(c, false));
    assert t == s.(clients := s.clients[c := s.clients[c].(pc := Prompting)]);
    assert Try(cfg, t, ClientStep(c, true)).clients == s.clients;
  }

  // ---------- The end of a client ----------

  predicate Ended(m: Client) {
    m.pc == Leaving || m.pc == Gone
  }

  /** At the end of its input a client leaves, and with its next turn it has closed, unlinked and gone. */
  lemma EndOfInput(cfg: Config, s: State, c: nat, go: bool)
    requires Inv(cfg, s) && c < |s.clients| && s.clients[c].pc == Prompting
    ensures
      var t := Try(cfg, s, ClientStep(c, false));
      Ended(t.clients[c]) && Try(cfg, t, ClientStep(c, go)).clients[c].pc == Gone
  {
    hide Inv;
  }

  lemma TryKeepsEnded(cfg: Config, s: State, a: Action, c: nat)
    requires Inv(cfg, s) && c < |s.clients| && Ended(s.clients[c])
    ensures
      var t := Try(cfg, s, a);
      && Ended(t.clients[c]) && (s.clients[c].pc == Gone ==> t.clients[c].pc == Gone)
      && t.clients[c].received == s.clients[c].received
      && (t.arrivals == s.arrivals || (a.ClientStep? && a.c != c && t.arrivals == s.arrivals + [a.c]))
  {
    hide QueueOk, TokensOk, OrderOk, DeliveryOk, LossOk;
    assert Outstanding(s.requests, s.server, s.clients[c], c) == 0;
    hide Inv, ConservationOk;
  }

  /** From then on it never asks, never receives and never comes back, under any schedule. */
  lemma {:induction false} EndedIsFinal(cfg: Config, s: State, schedule: seq<Action>, c: nat)
    requires Inv(cfg, s) && c < |s.clients| && Ended(s.clients[c])
    ensures
      var t := Exec(cfg, s, schedule);
      && Ended(t.clients[c]) && (s.clients[c].pc == Gone ==> t.clients[c].pc == Gone)
      && t.clients[c].received == s.clients[c].received
      && s.arrivals <= t.arrivals && forall r :: |s.arrivals| <= r < |t.arrivals| ==> t.arrivals[r] != c
    decreases |schedule|
  {
    hide Inv, Try, Ended;
    if schedule != [] {
      TryKeepsEnded(cfg, s, schedule[0], c);
      EndedIsFinal(cfg, Try(cfg, s, schedule[0]), schedule[1..], c);
    }
  }
}
