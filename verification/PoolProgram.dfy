/** The pool as the server keeps it: an array of slots updated in place by main and the workers. */
module PoolProgram {
  import opened PoolModel
  import opened PoolRuns

  /** cd_init */
  method CdInit(clients: array<Slot>, len: nat)
    requires len <= clients.Length
    modifies clients
    ensures forall k :: 0 <= k < len ==> clients[k] == old(clients[k]).(free := true)
    ensures forall k :: len <= k < clients.Length ==> clients[k] == old(clients[k])
  {
    for i := 0 to len
      invariant forall k :: 0 <= k < i ==> clients[k] == old(clients[k]).(free := true)
      invariant forall k :: i <= k < clients.Length ==> clients[k] == old(clients[k])
    {
      clients[i] := clients[i].(free := true);
    }
  }

  /** cd_getFreeIndex, with nobody else touching the pool: the lowest free slot, or -1. */
  method CdGetFreeIndex(clients: array<Slot>, len: nat) returns (index: int)
    requires len == clients.Length
    ensures index == -1 <==> forall k :: 0 <= k < len ==> !clients[k].free
    ensures index != -1 ==> 0 <= index < len && clients[index].free && forall k :: 0 <= k < index ==> !clients[k].free
    ensures index == if FirstFree(clients[..], 0) < len then FirstFree(clients[..], 0) else -1
  {
    for i := 0 to len
      invariant forall k :: 0 <= k < i ==> !clients[k].free
      invariant FirstFree(clients[..], 0) == FirstFree(clients[..], i)
    {
      if clients[i].free {
        return i;
      }
    }
    return -1;
  }

  class Server {
    const pool: array<Slot>
    var main: MainPc
    var workers: seq<Worker>
    var open: map<int, nat>
    var accepted: nat
    // history
    var dropped: nat
    var closed: nat
    var replies: seq<nat>
    var detached: seq<nat>
    var atAccept: seq<Slot>

    function Abs(): State
      reads this, pool
    {
      State(pool[..], main, workers, open, accepted, dropped, closed, replies, detached, atAccept)
    }

    /** Some schedule has brought the server here. */
    ghost predicate Valid()
      reads this, pool
    {
      Reachable(pool.Length, Abs())
    }

    constructor (len: nat)
      ensures Valid() && Abs() == Initial(len) && fresh(pool)
    {
      pool := new Slot[len](k => Slot(0, 0, false));
      main, workers, open, accepted := Accepting, [], map[], 0;
      dropped, closed, replies, detached, atAccept := 0, 0, [], [], [];
      new;
      CdInit(pool, len);
      InitialReachable(len);
      assert pool[..] == Initial(len).pool;
    }

    /** The next statement of main's accept loop; `newfd` is what accept returns. */
    method RunMain(newfd: int)
      requires Enabled(Abs(), MainStep(newfd)) && Legal(Abs(), MainStep(newfd))
      modifies this, pool
      ensures Abs() == StepMain(old(Abs()), newfd)
    {
      match main {
        case Accepting =>
          open, accepted, atAccept := open[newfd := accepted], accepted + 1, pool[..];
          main := Scanning(newfd, 0);
        case Scanning(fd, i) =>
          if i >= pool.Length {
            main := Dropping(fd);
          } else if pool[i].free {
            main := Claiming(fd, i);
          } else {
            main := Scanning(fd, i + 1);
          }
        case Dropping(fd) =>
          open, dropped := open - {fd}, dropped + 1;
          main := Accepting;
        case Claiming(fd, k) =>
          pool[k] := pool[k].(free := false);
          main := Storing(fd, k);
        case Storing(fd, k) =>
          pool[k] := pool[k].(fd := fd);
          main := Spawning(fd, k);
        case Spawning(fd, k) =>
          pool[k] := pool[k].(thread := |workers|);
          workers := workers + [Worker(Reading, k, open[fd])];
          main := Detaching(k);
        case Detaching(k) =>
          detached := detached + [pool[k].thread];
          main := Accepting;
      }
    }

    /** The next statement of worker w. */
    method RunWorker(w: nat)
      requires Enabled(Abs(), WorkerStep(w)) && Legal(Abs(), WorkerStep(w))
      modifies `workers, `open, `closed, `replies, pool
      ensures Abs() == StepWorker(old(Abs()), w)
    {
      var me := workers[w];
      var fd := pool[me.slot].fd;
      match me.pc {
        case Reading =>
          workers := workers[w := me.(pc := Writing)];
        case Writing =>
          replies := replies + [open[fd]];
          workers := workers[w := me.(pc := Closing)];
        case Closing =>
          open, closed := open - {fd}, closed + 1;
          workers := workers[w := me.(pc := Releasing)];
        case Releasing =>
          pool[me.slot] := pool[me.slot].(free := true);
          workers := workers[w := me.(pc := Finished)];
      }
    }

    /** One scheduling decision. */
    method RunOne(a: Action)
      requires Valid()
      modifies this, pool
      ensures Valid() && Inv(old(Abs())) && Abs() == Try(old(Abs()), a)
    {
      hide Inv, Reachable, Enabled, Legal, StepMain, StepWorker;
      ReachableInv(pool.Length, Abs());
      if Enabled(Abs(), a) {
        ghost var t := Next(pool.Length, Abs(), a);
        match a {
          case MainStep(fd) => RunMain(fd);
          case WorkerStep(w) => RunWorker(w);
        }
      }
    }

    /**
     The server under an arbitrary schedule does what the step machine does. Every connection
     accepted was dropped, closed or is open; running workers have slots of their own; and when
     main is back at accept and the workers are done, every connection was dropped or answered
     once and the whole pool is free again.
     */
    method Run(schedule: seq<Action>)
      requires Valid()
      modifies this, pool
      ensures Valid() && Inv(old(Abs())) && Abs() == Exec(old(Abs()), schedule)
      ensures accepted == dropped + closed + |open|
      ensures forall v, w :: 0 <= v < w < |workers| && Live(workers[v]) && Live(workers[w]) ==>
                workers[v].slot != workers[w].slot
      ensures main == Accepting && (forall w :: 0 <= w < |workers| ==> workers[w].pc == Finished) ==>
                && accepted == dropped + |replies| && |open| == 0
                && (forall i, j :: 0 <= i < j < |replies| ==> replies[i] != replies[j])
                && (forall k :: 0 <= k < pool.Length ==> pool[k].free)
    {
      hide Inv, Try, Reachable;
      ReachableInv(pool.Length, Abs());
      ghost var start := Abs();
      for k := 0 to |schedule|
        invariant Valid() && Inv(start) && Abs() == Exec(start, schedule[..k])
      {
        RunOne(schedule[k]);
        assert schedule[..k + 1] == schedule[..k] + [schedule[k]];
        ExecSnoc(start, schedule[..k], schedule[k]);
      }
      assert schedule[..|schedule|] == schedule;
      hide Exec;
      DescriptorLedger(pool.Length, Abs());
      SlotExclusivity(pool.Length, Abs());
      if main == Accepting && forall w :: 0 <= w < |workers| ==> workers[w].pc == Finished {
        QuietMeansServed(pool.Length, Abs());
      }
    }
  }
}
