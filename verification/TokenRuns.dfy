/** What the token protocol guarantees in every run, failing calls included. */
module TokenRuns {
  import opened TokenModel

  /** One scheduling decision: a blocked party changes nothing. */
  function Try(cfg: Config, s: State, a: Action): (r: State)
    requires Inv(cfg, s)
    ensures Inv(cfg, r) && |r.clients| == |s.clients|
  {
    if Enabled(cfg, s, a) then StepKeepsInv(cfg, s, a); Step(cfg, s, a) else s
  }

  function Exec(cfg: Config, s: State, schedule: seq<Action>): (r: State)
    requires Inv(cfg, s)
    ensures Inv(cfg, r) && |r.clients| == |s.clients|
    decreases |schedule|
  {
    hide Inv;
    if schedule == [] then s else Exec(cfg, Try(cfg, s, schedule[0]), schedule[1..])
  }

  lemma {:induction false} ExecSnoc(cfg: Config, s: State, u: seq<Action>, a: Action)
    requires Inv(cfg, s)
    ensures Exec(cfg, s, u + [a]) == Try(cfg, Exec(cfg, s, u), a)
    decreases |u|
  {
    hide Inv;
    if u == [] {
      assert Exec(cfg, s, [a]) == Exec(cfg, Try(cfg, s, a), []) && u + [a] == [a];
    } else {
      assert (u + [a])[1..] == u[1..] + [a];
      ExecSnoc(cfg, Try(cfg, s, u[0]), u[1..], a);
    }
  }

  // ---------- Conservation ----------

  /**
   After any schedule, failures included, a waiting client has exactly one request queued, in
   service, answered and unread, or lost, and any other client none; so every queued name belongs
   to a waiting client and a reply queue never holds more than one message.
   */
  lemma RequestConservation(cfg: Config, n: nat, schedule: seq<Action>, c: nat)
    requires c < n
    ensures Inv(cfg, Initial(n))
    ensures
      var t := Exec(cfg, Initial(n), schedule);
      && |t.clients| == n
      && Outstanding(t.requests, t.server, t.clients[c], c) == (if t.clients[c].pc == Waiting then 1 else 0)
      && (c in t.requests ==> t.clients[c].pc == Waiting)
      && |t.clients[c].replies| <= 1
  {
    InitialInv(cfg, n);
    var t := Exec(cfg, Initial(n), schedule);
    hide QueueOk, TokensOk, OrderOk, DeliveryOk, LossOk;
    assert c in t.requests ==> multiset(t.requests)[c] >= 1;
  }

  // ---------- Tokens ----------

  lemma {:induction false} CountBound(bs: seq<bool>, n: nat)
    requires n <= |bs|
    ensures Count(bs[..n]) <= n
    ensures Count(bs[..n]) == n <==> forall k :: 0 <= k < n ==> bs[k]
  {
    if n > 0 {
      CountBound(bs, n - 1);
      assert bs[..n][..n - 1] == bs[..n - 1];
    }
  }

  lemma {:induction false} CountMonotone(bs: seq<bool>, m: nat, n: nat)
    requires m <= n <= |bs|
    ensures Count(bs[..m]) <= Count(bs[..n])
    ensures (exists k :: m <= k < n && bs[k]) ==> Count(bs[..m]) < Count(bs[..n])
    decreases n
  {
    if m < n {
      CountMonotone(bs, m, n - 1);
      assert bs[..n][..n - 1] == bs[..n - 1];
    }
  }

  /** Every close before the latest answer succeeded. */
  predicate ClosedUpTo(s: State) {
    forall k :: 0 <= k < |s.closes| && k < |s.answers| - 1 ==> s.closes[k]
  }

  /** The answers carry exactly 1, 2, 3, ... if and only if no close before the last answer failed. */
  lemma TokensSequential(cfg: Config, s: State)
    requires Inv(cfg, s)
    ensures (forall k :: 0 <= k < |s.answers| ==> s.answers[k].token == k + 1) <==> ClosedUpTo(s)
  {
    hide ConservationOk, QueueOk, OrderOk, DeliveryOk, LossOk;
    forall k | 0 <= k < |s.answers|
      ensures s.answers[k].token == k + 1 <==> forall i :: 0 <= i < k ==> s.closes[i]
    {
      CountBound(s.closes, k);
    }
    if (forall k :: 0 <= k < |s.answers| ==> s.answers[k].token == k + 1) && s.answers != [] {
      assert s.answers[|s.answers| - 1].token == |s.answers|;
    }
  }

  /** A token is handed out twice exactly when a close before the last answer failed. */
  lemma TokensUniqueIffClosed(cfg: Config, s: State)
    requires Inv(cfg, s)
    ensures (forall i, j :: 0 <= i < j < |s.answers| ==> s.answers[i].token != s.answers[j].token) <==> ClosedUpTo(s)
  {
    TokensSequential(cfg, s);
    hide ConservationOk, QueueOk, OrderOk, DeliveryOk, LossOk;
    if !ClosedUpTo(s) {
      var k :| 0 <= k < |s.closes| && k < |s.answers| - 1 && !s.closes[k];
      assert s.closes[..k + 1][..k] == s.closes[..k];
      assert Count(s.closes[..k + 1]) == Count(s.closes[..k]);
      assert s.answers[k].token == s.answers[k + 1].token;
    }
  }

  lemma {:induction false} TokensForMember(answers: seq<Answer>, c: nat, x: nat)
    requires x in TokensFor(answers, c)
    ensures Answer(c, x) in answers
  {
    if answers != [] {
      var n := |answers| - 1;
      if x in TokensFor(answers[..n], c) {
        TokensForMember(answers[..n], c, x);
      } else {
        assert answers[n] == Answer(c, x);
      }
    }
  }

  /** With the closes successful, clients that received the same token are the same client. */
  lemma NoSharedToken(cfg: Config, s: State, c: nat, d: nat, x: nat)
    requires Inv(cfg, s) && ClosedUpTo(s) && c < |s.clients| && d < |s.clients|
    requires x in s.clients[c].received && x in s.clients[d].received
    ensures c == d
  {
    TokensUniqueIffClosed(cfg, s);
    hide ConservationOk, QueueOk, TokensOk, OrderOk, LossOk;
    assert x in TokensFor(s.answers, c) && x in TokensFor(s.answers, d);
    TokensForMember(s.answers, c, x);
    TokensForMember(s.answers, d, x);
    var i :| 0 <= i < |s.answers| && s.answers[i] == Answer(c, x);
    var j :| 0 <= j < |s.answers| && s.answers[j] == Answer(d, x);
    assert i == j;
  }

  /** Tokens follow the arrival order of the requests that were answered. */
  lemma AnswersInArrivalOrder(cfg: Config, s: State)
    requires Inv(cfg, s)
    ensures |s.outcomes| <= |s.arrivals| && ClientsOf(s.answers) == Answered(s.arrivals, s.outcomes)
    ensures forall i, j :: 0 <= i < j < |s.answers| ==> s.answers[i].token <= s.answers[j].token
  {
    hide ConservationOk, QueueOk, DeliveryOk, LossOk;
    forall i, j | 0 <= i < j < |s.answers| ensures s.answers[i].token <= s.answers[j].token {
      CountMonotone(s.closes, i, j);
    }
  }

  // ---------- Lost requests ----------

  lemma TryKeepsLost(cfg: Config, s: State, a: Action, c: nat)
    requires Inv(cfg, s) && c < |s.clients| && s.clients[c].lost > 0
    ensures Try(cfg, s, a).clients[c] == s.clients[c]
  {
    hide QueueOk, TokensOk, OrderOk, DeliveryOk, LossOk;
    assert Outstanding(s.requests, s.server, s.clients[c], c) <= 1;
    if Enabled(cfg, s, a) {
      StepKeepsInv(cfg, s, a);
    }
  }

  /** A client whose request the server gave up on waits for ever, whatever happens. */
  lemma {:induction false} LostClientIsStuck(cfg: Config, s: State, schedule: seq<Action>, c: nat)
    requires Inv(cfg, s) && c < |s.clients| && s.clients[c].lost > 0
    ensures s.clients[c].pc == Waiting
    ensures Exec(cfg, s, schedule).clients[c] == s.clients[c]
    decreases |schedule|
  {
    LostIsWaiting(cfg, s, c);
    hide Inv;
    if schedule != [] {
      TryKeepsLost(cfg, s, schedule[0], c);
      LostClientIsStuck(cfg, Try(cfg, s, schedule[0]), schedule[1..], c);
    }
  }

  lemma LostIsWaiting(cfg: Config, s: State, c: nat)
    requires Inv(cfg, s) && c < |s.clients| && s.clients[c].lost > 0
    ensures s.clients[c].pc == Waiting
  {
    hide QueueOk, TokensOk, OrderOk, DeliveryOk, LossOk;
    assert Outstanding(s.requests, s.server, s.clients[c], c) >= 1;
  }

  // ---------- Progress, whatever fails ----------

  /**
   The server never blocks on a client: once it has a request it can make its next call, whatever
   descriptor the open returns and whether or not the call fails.
   */
  lemma ServerNeverBlocks(cfg: Config, s: State, qd: int, fail: bool)
    requires Inv(cfg, s) && cfg.replySlots > 0
    requires s.server != Receiving || s.requests != []
    ensures Enabled(cfg, s, ServerStep(qd, fail))
  {
    hide QueueOk, TokensOk, OrderOk, DeliveryOk, LossOk;
    if s.server.Opening? || s.server.Sending? {
      var c := s.server.client;
      assert Outstanding(s.requests, s.server, s.clients[c], c) >= 1;
    }
  }

  /** The server is about to send on the bad descriptor of an open that failed. */
  predicate OpenFailed(s: State) {
    s.server.Sending? && s.server.qd < 0
  }

  /** A step in which no system call fails: the environment lets it succeed, and it is not that send. */
  predicate Clean(s: State, a: Action) {
    match a
    case ClientStep(c, go) => c < |s.clients| && s.clients[c].pc == Asking ==> go
    case ServerStep(qd, fail) => !fail && qd >= 0 && qd != 1 && !OpenFailed(s)
  }

  /**
   Some call can be made whenever a client asks, or waits for a request not given up; and it can
   succeed, unless it is the send on a descriptor that failed to open.
   */
  lemma NoDeadlock(cfg: Config, s: State, c: nat) returns (a: Action)
    requires Inv(cfg, s) && cfg.requestSlots > 0 && cfg.replySlots > 0
    requires c < |s.clients| && (s.clients[c].pc == Asking || (s.clients[c].pc == Waiting && !GivenUp(s, c)))
    ensures Enabled(cfg, s, a)
    ensures !OpenFailed(s) ==> Clean(s, a)
  {
    if s.server != Receiving || s.requests != [] {
      ServerNeverBlocks(cfg, s, 0, false);
      a := ServerStep(0, false);
    } else {
      hide QueueOk, TokensOk, OrderOk, DeliveryOk;
      assert Outstanding(s.requests, s.server, s.clients[c], c) == |s.clients[c].replies| + s.clients[c].lost;
      a := ClientStep(c, true);
    }
  }

  /** After a failed open a call can still succeed exactly if some client's can. */
  lemma CleanStepBoundary(cfg: Config, s: State, c: nat)
    requires Inv(cfg, s) && cfg.requestSlots > 0 && cfg.replySlots > 0
    requires c < |s.clients| && (s.clients[c].pc == Asking || (s.clients[c].pc == Waiting && !GivenUp(s, c)))
    ensures (exists a :: Enabled(cfg, s, a) && Clean(s, a)) <==>
            !OpenFailed(s) || exists d, go :: Enabled(cfg, s, ClientStep(d, go)) && Clean(s, ClientStep(d, go))
  {
    hide Inv, GivenUp, Enabled;
    var a := NoDeadlock(cfg, s, c);
    if b :| Enabled(cfg, s, b) && Clean(s, b) && OpenFailed(s) {
      assert b == ClientStep(b.c, b.go);
    }
  }

  /** Calls the server has made, a request given up early counting as all four. */
  function Progress(s: State): int {
    match s.server
    case Receiving => 4 * |s.outcomes|
    case Opening(_) => 4 * |s.outcomes| + 1
    case Sending(_, _) => 4 * |s.outcomes| + 2
    case Closing(_) => 4 * |s.outcomes| - 1
  }

  function ServerTurns(schedule: seq<Action>): nat {
    if schedule == [] then 0 else (if schedule[0].ServerStep? then 1 else 0) + ServerTurns(schedule[1..])
  }

  lemma StepProgress(cfg: Config, s: State, a: Action)
    requires Enabled(cfg, s, a)
    ensures s.arrivals <= Step(cfg, s, a).arrivals
    ensures Progress(Step(cfg, s, a)) >= Progress(s) + if a.ServerStep? then 1 else 0
    ensures a.ClientStep? ==> Step(cfg, s, a).server == s.server && Step(cfg, s, a).outcomes == s.outcomes
  {
  }

  lemma Idle(cfg: Config, s: State)
    requires QueueOk(cfg, s) && s.server == Receiving && s.requests == []
    ensures Progress(s) == 4 * |s.arrivals|
  {
  }

  /** A turn of the server moves it on unless it has dealt with everything that arrived. */
  lemma TurnProgresses(cfg: Config, s: State, a: Action)
    requires Inv(cfg, s) && cfg.replySlots > 0
    ensures s.arrivals <= Try(cfg, s, a).arrivals
    ensures Progress(Try(cfg, s, a)) >= Progress(s)
    ensures a.ServerStep? ==> Progress(Try(cfg, s, a)) >= Progress(s) + 1 || Progress(s) == 4 * |s.arrivals|
  {
    assert QueueOk(cfg, s);
    hide Inv, QueueOk, Step, Progress, Enabled;
    if Enabled(cfg, s, a) {
      StepProgress(cfg, s, a);
    } else if a.ServerStep? {
      if s.server != Receiving || s.requests != [] {
        ServerNeverBlocks(cfg, s, a.qd, a.fail);
      } else {
        Idle(cfg, s);
      }
    }
  }

  /** Progress after a schedule: at least one per turn, until the r-th request is dealt with. */
  lemma {:induction false} ProgressBound(cfg: Config, s: State, schedule: seq<Action>, r: nat)
    requires Inv(cfg, s) && cfg.replySlots > 0 && r < |s.arrivals|
    ensures
      var t := Exec(cfg, s, schedule);
      && s.arrivals <= t.arrivals && Progress(t) >= Progress(s)
      && (Progress(t) >= Progress(s) + ServerTurns(schedule) || Progress(t) >= 4 * r + 3)
    decreases |schedule|
  {
    hide Inv, Progress, Try;
    if schedule != [] {
      TurnProgresses(cfg, s, schedule[0]);
      ProgressBound(cfg, Try(cfg, s, schedule[0]), schedule[1..], r);
    }
  }

  /**
   Every request is dealt with, whatever fails: the r-th to have arrived is answered or given up
   after at most 4r + 3 - Progress further turns of the server, with any client steps in between.
   */
  lemma DealtWith(cfg: Config, s: State, schedule: seq<Action>, r: nat)
    requires Inv(cfg, s) && cfg.replySlots > 0
    requires r < |s.arrivals| && ServerTurns(schedule) >= 4 * r + 3 - Progress(s)
    ensures
      var t := Exec(cfg, s, schedule);
      s.arrivals <= t.arrivals && r < |t.outcomes|
  {
    hide Inv;
    ProgressBound(cfg, s, schedule, r);
  }

  // ---------- Which requests are answered ----------

  lemma {:induction false} ClientsLeaveServer(cfg: Config, s: State, schedule: seq<Action>)
    requires Inv(cfg, s) && ServerTurns(schedule) == 0
    ensures Exec(cfg, s, schedule).server == s.server && Exec(cfg, s, schedule).outcomes == s.outcomes
    decreases |schedule|
  {
    hide Inv, Step, Enabled;
    if schedule != [] {
      if Enabled(cfg, s, schedule[0]) {
        StepProgress(cfg, s, schedule[0]);
      }
      ClientsLeaveServer(cfg, Try(cfg, s, schedule[0]), schedule[1..]);
    }
  }

  /**
   A request in service is answered exactly if its own open returns a descriptor other than 1 and
   its own send succeeds; what clients do between the two calls does not matter.
   */
  lemma ServeOutcome(cfg: Config, s: State, qd: int, clients: seq<Action>, fail: bool)
    requires Inv(cfg, s) && cfg.replySlots > 0 && s.server.Opening? && ServerTurns(clients) == 0
    ensures
      var sending := Try(cfg, s, ServerStep(qd, fail));
      var t := Try(cfg, Exec(cfg, sending, clients), ServerStep(qd, fail));
      t.outcomes == s.outcomes + [qd >= 0 && qd != 1 && !fail]
  {
    ServerNeverBlocks(cfg, s, qd, fail);
    var sending := Try(cfg, s, ServerStep(qd, fail));
    hide Inv;
    ClientsLeaveServer(cfg, sending, clients);
    var u := Exec(cfg, sending, clients);
    if u.server != Receiving || u.requests != [] {
      ServerNeverBlocks(cfg, u, qd, fail);
    }
  }

  lemma {:induction false} AnsweredAt(arrivals: seq<nat>, outcomes: seq<bool>, r: nat)
    requires r < |outcomes| <= |arrivals| && outcomes[r]
    ensures Count(outcomes[..r]) < |Answered(arrivals, outcomes)|
    ensures Answered(arrivals, outcomes)[Count(outcomes[..r])] == arrivals[r]
    decreases |outcomes|
  {
    var n := |outcomes| - 1;
    if r == n {
      AnsweredLength(arrivals, outcomes[..n]);
    } else {
      AnsweredAt(arrivals, outcomes[..n], r);
      assert outcomes[..n][..r] == outcomes[..r];
    }
  }

  lemma {:induction false} AnsweredLength(arrivals: seq<nat>, outcomes: seq<bool>)
    requires |outcomes| <= |arrivals|
    ensures |Answered(arrivals, outcomes)| == Count(outcomes)
    decreases |outcomes|
  {
    if outcomes != [] {
      AnsweredLength(arrivals, outcomes[..|outcomes| - 1]);
    }
  }

  /**
   Bounded answering: within that many turns the r-th request has been answered, by the answer
   that follows those of the answered requests before it and to the client that asked; or it has
   been given up and its client waits from then on.
   */
  lemma AnsweredWithinTurns(cfg: Config, s: State, schedule: seq<Action>, r: nat)
    requires Inv(cfg, s) && cfg.replySlots > 0
    requires r < |s.arrivals| && ServerTurns(schedule) >= 4 * r + 3 - Progress(s)
    ensures
      var t := Exec(cfg, s, schedule);
      && r < |t.outcomes| && s.arrivals[r] < |t.clients|
      && if t.outcomes[r] then
           var k := Count(t.outcomes[..r]);
           k < |t.answers| && t.answers[k].client == s.arrivals[r]
         else
           GivenUp(t, s.arrivals[r]) && t.clients[s.arrivals[r]].pc == Waiting
  {
    DealtWith(cfg, s, schedule, r);
    var t := Exec(cfg, s, schedule);
    assert s.arrivals[r] < |s.clients|;
    hide ConservationOk, QueueOk, TokensOk, DeliveryOk;
    assert s.arrivals[r] == t.arrivals[r];
    if t.outcomes[r] {
      AnsweredAt(t.arrivals, t.outcomes, r);
      assert ClientsOf(t.answers)[Count(t.outcomes[..r])] == t.arrivals[r];
    } else {
      LostIsWaiting(cfg, t, s.arrivals[r]);
    }
  }

  // ---------- Runs without failures ----------

  /** Nothing has failed so far. */
  predicate FailureFree(s: State) {
    && (forall k :: 0 <= k < |s.outcomes| ==> s.outcomes[k])
    && !OpenFailed(s)
  }

  predicate CleanRun(cfg: Config, s: State, schedule: seq<Action>)
    requires Inv(cfg, s)
    decreases |schedule|
  {
    hide Inv;
    schedule == [] || (Clean(s, schedule[0]) && CleanRun(cfg, Try(cfg, s, schedule[0]), schedule[1..]))
  }

  lemma TryKeepsFailureFree(cfg: Config, s: State, a: Action)
    requires Inv(cfg, s) && FailureFree(s) && Clean(s, a)
    ensures FailureFree(Try(cfg, s, a))
  {
    hide Inv;
  }

  lemma {:induction false} CleanRunIsFailureFree(cfg: Config, s: State, schedule: seq<Action>)
    requires Inv(cfg, s) && FailureFree(s) && CleanRun(cfg, s, schedule)
    ensures FailureFree(Exec(cfg, s, schedule))
    decreases |schedule|
  {
    hide Inv, FailureFree, Clean, Try;
    if schedule != [] {
      TryKeepsFailureFree(cfg, s, schedule[0]);
      CleanRunIsFailureFree(cfg, Try(cfg, s, schedule[0]), schedule[1..]);
    }
  }

  /** In a run without failures the r-th request gets the r-th answer, within those turns. */
  lemma CleanRunAnswersAll(cfg: Config, s: State, schedule: seq<Action>, r: nat)
    requires Inv(cfg, s) && cfg.replySlots > 0 && FailureFree(s) && CleanRun(cfg, s, schedule)
    requires r < |s.arrivals| && ServerTurns(schedule) >= 4 * r + 3 - Progress(s)
    ensures
      var t := Exec(cfg, s, schedule);
      r < |t.answers| && t.answers[r].client == s.arrivals[r]
  {
    hide Inv, GivenUp, Progress, Exec;
    AnsweredWithinTurns(cfg, s, schedule, r);
    CleanRunIsFailureFree(cfg, s, schedule);
    CountBound(Exec(cfg, s, schedule).outcomes, r);
  }

  // ---------- Who waits for ever ----------

  /** The server has given up on client c's request, or will because its open failed. */
  predicate Doomed(s: State, c: nat) {
    GivenUp(s, c) || (OpenFailed(s) && s.server.client == c)
  }

  lemma TryKeepsDoomed(cfg: Config, s: State, a: Action, c: nat)
    requires Inv(cfg, s) && c < |s.clients| && s.clients[c].pc == Waiting && Doomed(s, c)
    ensures Try(cfg, s, a).clients[c].pc == Waiting && Doomed(Try(cfg, s, a), c)
  {
    if s.clients[c].lost > 0 {
      TryKeepsLost(cfg, s, a, c);
    } else {
      hide QueueOk, TokensOk, OrderOk, DeliveryOk, GivenUp;
      assert Outstanding(s.requests, s.server, s.clients[c], c) <= 1;
      if Enabled(cfg, s, a) {
        StepKeepsInv(cfg, s, a);
      }
    }
  }

  lemma {:induction false} DoomedWaits(cfg: Config, s: State, schedule: seq<Action>, c: nat)
    requires Inv(cfg, s) && c < |s.clients| && s.clients[c].pc == Waiting && Doomed(s, c)
    ensures Exec(cfg, s, schedule).clients[c].pc == Waiting
    decreases |schedule|
  {
    hide Inv, Doomed, Try;
    if schedule != [] {
      TryKeepsDoomed(cfg, s, schedule[0], c);
      DoomedWaits(cfg, Try(cfg, s, schedule[0]), schedule[1..], c);
    }
  }

  /** n turns of the server in which nothing fails. */
  function Serve(n: nat): (r: seq<Action>)
    ensures ServerTurns(r) == n
  {
    if n == 0 then [] else [ServerStep(0, false)] + Serve(n - 1)
  }

  lemma TurnSparesClient(cfg: Config, s: State, c: nat)
    requires Inv(cfg, s) && c < |s.clients| && s.clients[c].pc == Waiting && !Doomed(s, c)
    ensures
      var t := Try(cfg, s, ServerStep(0, false));
      t.arrivals == s.arrivals && t.clients[c].pc == Waiting && !Doomed(t, c)
  {
    hide QueueOk, TokensOk, OrderOk, DeliveryOk, GivenUp, ConservationOk;
    if Enabled(cfg, s, ServerStep(0, false)) {
      StepKeepsInv(cfg, s, ServerStep(0, false));
    }
  }

  lemma {:induction false} ServeSparesClient(cfg: Config, s: State, n: nat, c: nat)
    requires Inv(cfg, s) && c < |s.clients| && s.clients[c].pc == Waiting && !Doomed(s, c)
    ensures
      var t := Exec(cfg, s, Serve(n));
      t.arrivals == s.arrivals && t.clients[c].pc == Waiting && !Doomed(t, c)
    decreases n
  {
    hide Inv, Doomed, Try;
    if n > 0 {
      TurnSparesClient(cfg, s, c);
      assert Serve(n)[1..] == Serve(n - 1);
      ServeSparesClient(cfg, Try(cfg, s, ServerStep(0, false)), n - 1, c);
    }
  }

  /** Once everything that arrived is dealt with, a waiting client that is not doomed has its reply. */
  lemma ReplyIsThere(cfg: Config, s: State, c: nat)
    requires Inv(cfg, s) && |s.outcomes| == |s.arrivals|
    requires c < |s.clients| && s.clients[c].pc == Waiting && !Doomed(s, c)
    ensures Enabled(cfg, s, ClientStep(c, true))
  {
    hide TokensOk, OrderOk, DeliveryOk, GivenUp;
    assert Taken(s) == |s.arrivals| && s.requests == [];
    assert Outstanding(s.requests, s.server, s.clients[c], c) == |s.clients[c].replies|;
  }

  /** A client that is not doomed can still be answered: the server's calls succeed, then it reads. */
  lemma RescueRun(cfg: Config, s: State, c: nat) returns (schedule: seq<Action>)
    requires Inv(cfg, s) && cfg.replySlots > 0
    requires c < |s.clients| && s.clients[c].pc == Waiting && !Doomed(s, c)
    ensures Exec(cfg, s, schedule).clients[c].pc == Prompting
  {
    var n := 4 * |s.arrivals| + 1;
    var t := Exec(cfg, s, Serve(n));
    ServeSparesClient(cfg, s, n, c);
    if s.arrivals != [] {
      var r := |s.arrivals| - 1;
      assert Progress(s) >= -1;
      DealtWith(cfg, s, Serve(n), r);
    }
    assert |t.outcomes| == |t.arrivals| by {
      hide ConservationOk, TokensOk, OrderOk, DeliveryOk, LossOk, Doomed;
    }
    ReplyIsThere(cfg, t, c);
    schedule := Serve(n) + [ClientStep(c, true)];
    ExecSnoc(cfg, s, Serve(n), ClientStep(c, true));
  }

  /**
   A waiting client waits for ever, whatever happens, exactly if the server has given up on its own
   request or has failed to open its queue; what happened to any other request does not matter.
   */
  lemma WaitsForeverIffGivenUp(cfg: Config, s: State, c: nat)
    requires Inv(cfg, s) && cfg.replySlots > 0 && c < |s.clients| && s.clients[c].pc == Waiting
    ensures (forall schedule :: Exec(cfg, s, schedule).clients[c].pc == Waiting) <==>
            GivenUp(s, c) || (OpenFailed(s) && s.server.client == c)
  {
    hide Inv, GivenUp, Exec;
    if Doomed(s, c) {
      forall schedule ensures Exec(cfg, s, schedule).clients[c].pc == Waiting {
        DoomedWaits(cfg, s, schedule, c);
      }
    } else {
      var schedule := RescueRun(cfg, s, c);
    }
  }

  lemma ExecCons(cfg: Config, s: State, a: Action, rest: seq<Action>)
    requires Inv(cfg, s)
    ensures Exec(cfg, s, [a] + rest) == Exec(cfg, Try(cfg, s, a), rest)
  {
    hide Inv, Try;
    assert ([a] + rest)[1..] == rest;
  }

  /** A client's first request. */
  lemma FirstRequest(cfg: Config, n: nat) returns (s: State)
    requires n > 0 && cfg.requestSlots > 0
    ensures Inv(cfg, Initial(n)) && Inv(cfg, s) && |s.clients| == n
    ensures s == Try(cfg, Try(cfg, Initial(n), ClientStep(0, true)), ClientStep(0, true))
    ensures s.clients[0] == Client(Waiting, [], [], 0) && s.requests == [0] && s.server == Receiving
    ensures s.arrivals == [0] && s.outcomes == []
  {
    InitialInv(cfg, n);
    hide Inv;
    s := Try(cfg, Initial(n), ClientStep(0, true));
    assert s.clients[0] == Client(Asking, [], [], 0);
    s := Try(cfg, s, ClientStep(0, true));
  }

  /** The server takes it, gets descriptor qd, and gives up at once or at its send. */
  lemma LoseRequest(cfg: Config, s: State, serve: Action) returns (t: State)
    requires Inv(cfg, s) && |s.clients| > 0 && s.clients[0] == Client(Waiting, [], [], 0)
    requires s.requests == [0] && s.server == Receiving && s.arrivals == [0] && s.outcomes == []
    requires serve.ServerStep? && (serve.qd == 1 || serve.qd < 0)
    ensures t == Try(cfg, Try(cfg, Try(cfg, s, serve), serve), serve)
    ensures |t.clients| > 0 && t.clients[0] == Client(Waiting, [], [], 1) && t.arrivals == [0] && t.outcomes == [false]
  {
    hide Inv;
    t := Try(cfg, s, serve);
    assert t == s.(server := Opening(0), requests := []);
    t := Try(cfg, t, serve);
    assert t.requests == [] && if serve.qd == 1 then t.server == Receiving else t.server == Sending(0, serve.qd);
    t := Try(cfg, t, serve);
  }

  lemma FourSteps(cfg: Config, s: State, a: Action, b: Action)
    requires Inv(cfg, s)
    ensures Exec(cfg, s, [a, a, b, b]) == Try(cfg, Try(cfg, Try(cfg, Try(cfg, s, a), a), b), b)
  {
    hide Inv, Try;
    var s1 := Try(cfg, s, a);
    var s2 := Try(cfg, s1, a);
    var s3 := Try(cfg, s2, b);
    ExecCons(cfg, s, a, [a, b, b]);
    ExecCons(cfg, s1, a, [b, b]);
    ExecCons(cfg, s2, b, [b]);
    ExecCons(cfg, s3, b, []);
    assert [a, a, b, b] == [a] + [a, b, b] && [a, b, b] == [a] + [b, b];
    assert [b, b] == [b] + [b] && [b] == [b] + [];
  }

  /** A client's request is given up when its queue opens as descriptor 1, or fails to open. */
  lemma LostReachable(cfg: Config, n: nat, qd: int)
    requires n > 0 && cfg.requestSlots > 0 && (qd == 1 || qd < 0)
    ensures Inv(cfg, Initial(n))
    ensures
      var ask, serve := ClientStep(0, true), ServerStep(qd, false);
      var t := Exec(cfg, Initial(n), [ask, ask, serve, serve, serve]);
      t.clients[0].lost == 1 && t.clients[0].pc == Waiting && GivenUp(t, 0)
  {
    hide Inv, Try, Exec, Initial;
    var ask, serve := ClientStep(0, true), ServerStep(qd, false);
    var s := FirstRequest(cfg, n);
    var t := LoseRequest(cfg, s, serve);
    assert !t.outcomes[0] && t.arrivals[0] == 0;
    FourSteps(cfg, Initial(n), ask, serve);
    ExecSnoc(cfg, Initial(n), [ask, ask, serve, serve], serve);
    assert [ask, ask, serve, serve] + [serve] == [ask, ask, serve, serve, serve];
  }

  /** The server takes the request, and the open fails. */
  lemma OpenFails(cfg: Config, s: State, serve: Action) returns (t: State)
    requires Inv(cfg, s) && s.clients == [Client(Waiting, [], [], 0)]
    requires s.requests == [0] && s.server == Receiving && s.outcomes == []
    requires serve.ServerStep? && serve.qd < 0
    ensures t == Try(cfg, Try(cfg, s, serve), serve)
    ensures t.clients == s.clients && t.requests == [] && t.server == Sending(0, serve.qd) && t.outcomes == []
  {
    hide Inv;
    t := Try(cfg, s, serve);
    assert t == s.(server := Opening(0), requests := []);
    t := Try(cfg, t, serve);
  }

  /** The only call that can be made is a server call that fails and gives up the request. */
  ghost predicate OnlyFailureLeft(cfg: Config, s: State) {
    forall a :: Enabled(cfg, s, a) ==> a.ServerStep? && !Clean(s, a) && Step(cfg, s, a).outcomes == [false]
  }

  lemma OnlySendEnabled(cfg: Config, s: State)
    requires s.clients == [Client(Waiting, [], [], 0)] && s.requests == [] && s.outcomes == []
    requires s.server.Sending? && s.server.client == 0 && s.server.qd < 0
    ensures OnlyFailureLeft(cfg, s) && !GivenUp(s, 0)
  {
  }

  /**
   The exception is real: one client, its queue fails to open, and the only call left is the send
   that fails, although its request is not yet given up.
   */
  lemma OnlyFailingSendLeft(cfg: Config, qd: int) returns (s: State)
    requires cfg.requestSlots > 0 && qd < 0
    ensures Inv(cfg, Initial(1))
    ensures
      var ask, serve := ClientStep(0, true), ServerStep(qd, false);
      s == Exec(cfg, Initial(1), [ask, ask, serve, serve])
    ensures s.clients == [Client(Waiting, [], [], 0)] && !GivenUp(s, 0) && OnlyFailureLeft(cfg, s)
  {
    hide Inv, Try, Exec, Initial, OnlyFailureLeft, GivenUp;
    var ask, serve := ClientStep(0, true), ServerStep(qd, false);
    var s2 := FirstRequest(cfg, 1);
    assert s2.clients == [s2.clients[0]];
    s := OpenFails(cfg, s2, serve);
    OnlySendEnabled(cfg, s);
    FourSteps(cfg, Initial(1), ask, serve);
  }
}
