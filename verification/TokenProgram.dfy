/** The server and its clients as they run: queues and the counter updated in place. */
module TokenProgram {
  import opened TokenModel
  import opened TokenRuns

  class TokenService {
    const cfg: Config
    const clients: array<Client>
    var requests: seq<nat>
    var server: ServerPc
    var tokenNumber: nat
    // history
    var arrivals: seq<nat>
    var outcomes: seq<bool>
    var answers: seq<Answer>
    var closes: seq<bool>

    function Abs(): State
      reads this, clients
    {
      State(requests, clients[..], server, tokenNumber, arrivals, outcomes, answers, closes)
    }

    ghost predicate Valid()
      reads this, clients
    {
      Inv(cfg, Abs())
    }

    constructor (cfg: Config, n: nat)
      ensures Valid() && Abs() == Initial(n) && this.cfg == cfg && fresh(clients)
    {
      this.cfg := cfg;
      clients := new Client[n](c => Client(Prompting, [], [], 0));
      requests, server, tokenNumber := [], Receiving, 1;
      arrivals, outcomes, answers, closes := [], [], [], [];
      new;
      InitialInv(cfg, n);
      assert clients[..] == Initial(n).clients;
    }

    /** The client's loop and its exit path, one call at a time. */
    method RunClient(c: nat, go: bool)
      requires Enabled(cfg, Abs(), ClientStep(c, go))
      modifies `requests, `arrivals, clients
      ensures Abs() == StepClient(cfg, old(Abs()), c, go)
    {
      var me := clients[c];
      match me.pc {
        case Prompting =>
          clients[c] := me.(pc := if go then Asking else Leaving);
        case Asking =>
          if go {
            requests, arrivals := requests + [c], arrivals + [c];
            clients[c] := me.(pc := Waiting);
          } else {
            clients[c] := me.(pc := Prompting);
          }
        case Waiting =>
          var inBuffer := me.replies[0];
          clients[c] := me.(pc := Prompting, replies := me.replies[1..], received := me.received + [inBuffer]);
        case Leaving =>
          clients[c] := me.(pc := Gone);
      }
    }

    /** continue: back to mq_receive with the request unanswered. */
    method Continue(c: nat)
      requires c < clients.Length
      modifies `server, `outcomes, clients
      ensures Abs() == GiveUp(old(Abs()), c)
    {
      server := Receiving;
      outcomes := outcomes + [false];
      clients[c] := clients[c].(lost := clients[c].lost + 1);
    }

    /** The server's loop, one call at a time. */
    method RunServer(qd: int, fail: bool)
      requires Enabled(cfg, Abs(), ServerStep(qd, fail))
      modifies `requests, `server, `tokenNumber, `outcomes, `answers, `closes, clients
      ensures Abs() == StepServer(cfg, old(Abs()), qd, fail)
    {
      match server {
        case Receiving =>
          server := Opening(requests[0]);
          requests := requests[1..];
        case Opening(c) =>
          if qd == 1 {
            Continue(c);
          } else {
            server := Sending(c, qd);
          }
        case Sending(c, q) =>
          if q < 0 || fail {
            Continue(c);
          } else {
            clients[c] := clients[c].(replies := clients[c].replies + [tokenNumber]);
            answers := answers + [Answer(c, tokenNumber)];
            outcomes := outcomes + [true];
            server := Closing(c);
          }
        case Closing(_) =>
          if !fail {
            tokenNumber := tokenNumber + 1;
          }
          closes := closes + [!fail];
          server := Receiving;
      }
    }

    /** One scheduling decision. */
    method RunOne(a: Action)
      requires Valid()
      modifies this, clients
      ensures Valid() && Inv(cfg, old(Abs())) && Abs() == Try(cfg, old(Abs()), a)
    {
      if Enabled(cfg, Abs(), a) {
        StepKeepsInv(cfg, Abs(), a);
        hide Inv, Enabled, StepClient, StepServer;
        match a {
          case ClientStep(c, go) => RunClient(c, go);
          case ServerStep(qd, fail) => RunServer(qd, fail);
        }
      }
    }

    /**
     All processes under an arbitrary schedule do what the step machine does: the answers are the
     tokens 1, 2, 3, ... exactly while every close succeeds, no two clients then hold the same
     token, and a client that waits has its request queued, in service, answered or given up.
     */
    method Run(schedule: seq<Action>)
      requires Valid()
      modifies this, clients
      ensures Valid() && Inv(cfg, old(Abs())) && Abs() == Exec(cfg, old(Abs()), schedule)
      ensures tokenNumber == 1 + Count(closes)
      ensures (forall k :: 0 <= k < |answers| ==> answers[k].token == k + 1) <==> ClosedUpTo(Abs())
      ensures ClosedUpTo(Abs()) ==> Unshared(clients[..])
      ensures forall c :: 0 <= c < clients.Length && clients[c].pc == Waiting ==>
                c in requests || InService(server, c) || |clients[c].replies| == 1 || GivenUp(Abs(), c)
    {
      hide Inv, Try;
      ghost var start := Abs();
      for k := 0 to |schedule|
        invariant Valid() && Inv(cfg, start) && Abs() == Exec(cfg, start, schedule[..k])
      {
        RunOne(schedule[k]);
        assert schedule[..k + 1] == schedule[..k] + [schedule[k]];
        ExecSnoc(cfg, start, schedule[..k], schedule[k]);
      }
      assert schedule[..|schedule|] == schedule;
      hide Exec, GivenUp, ClosedUpTo, Count;
      ServiceSoFar(cfg, Abs());
    }
  }

  /** No two clients have received the same token. */
  ghost predicate Unshared(clients: seq<Client>) {
    forall c, d, x :: 0 <= c < d < |clients| && x in clients[c].received ==> x !in clients[d].received
  }

  /** What has been answered in any state of the service, and where the open requests are. */
  lemma ServiceSoFar(cfg: Config, s: State)
    requires Inv(cfg, s)
    ensures s.token == 1 + Count(s.closes)
    ensures (forall k :: 0 <= k < |s.answers| ==> s.answers[k].token == k + 1) <==> ClosedUpTo(s)
    ensures ClosedUpTo(s) ==> Unshared(s.clients)
    ensures forall c :: 0 <= c < |s.clients| && s.clients[c].pc == Waiting ==>
              c in s.requests || InService(s.server, c) || |s.clients[c].replies| == 1 || GivenUp(s, c)
  {
    TokensSequential(cfg, s);
    assert s.token == 1 + Count(s.closes);
    hide TokensOk, QueueOk, OrderOk, DeliveryOk, GivenUp, Count;
    forall c | 0 <= c < |s.clients| && s.clients[c].pc == Waiting
      ensures c in s.requests || InService(s.server, c) || |s.clients[c].replies| == 1 || GivenUp(s, c)
    {
      assert Outstanding(s.requests, s.server, s.clients[c], c) == 1;
    }
    hide Inv, ClosedUpTo;
    forall c, d, x | ClosedUpTo(s) && 0 <= c < d < |s.clients| && x in s.clients[c].received
      ensures x !in s.clients[d].received
    {
      if x in s.clients[d].received {
        NoSharedToken(cfg, s, c, d, x);
      }
    }
  }
}
