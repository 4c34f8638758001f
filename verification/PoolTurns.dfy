/** Nobody waits for anybody: what one turn of main or of a worker does, and how soon each is done. */
module PoolTurns {
  import opened PoolModel
  import opened PoolRuns

  // ---------- One turn ----------

  /**
   An accept takes the next connection whatever the workers are doing: it needs only a number the
   kernel has free, and it changes neither the pool nor any worker.
   */
  lemma AcceptNeverWaits(len: nat, s: State, fd: int)
    requires Reachable(len, s) && s.main == Accepting && fd !in s.open
    ensures Inv(s)
    ensures
      var t := Try(s, MainStep(fd));
      && t.accepted == s.accepted + 1 && t.main == Scanning(fd, 0)
      && t.open == s.open[fd := s.accepted] && t.pool == s.pool && t.workers == s.workers
  {
    ReachableInv(len, s);
    hide Inv, Reachable;
  }

  /** Before main has its connection's slot, a turn is one probe; from then on it is straight-line code. */
  function MainLeft(len: nat, main: MainPc): int {
    match main
    case Accepting => 0
    case Scanning(_, i) => len - i + 5
    case Dropping(_) => 1
    case Claiming(_, _) => 4
    case Storing(_, _) => 3
    case Spawning(_, _) => 2
    case Detaching(_) => 1
  }

  function WorkerLeft(pc: WorkerPc): nat {
    match pc
    case Reading => 4
    case Writing => 3
    case Closing => 2
    case Releasing => 1
    case Finished => 0
  }

  lemma MainStatement(s: State, fd: int)
    requires s.main != Accepting && Enabled(s, MainStep(fd)) && Legal(s, MainStep(fd))
    requires s.main.Scanning? ==> s.main.i <= |s.pool|
    ensures
      var t := StepMain(s, fd);
      && MainLeft(|s.pool|, s.main) > MainLeft(|s.pool|, t.main) >= 0
      && |t.workers| >= |s.workers| && forall w :: 0 <= w < |s.workers| ==> t.workers[w] == s.workers[w]
  {
  }

  /** A turn of main outside accept always brings it closer to the next accept. */
  lemma MainTurn(len: nat, s: State, fd: int)
    requires Reachable(len, s) && s.main != Accepting
    ensures Inv(s)
    ensures
      var t := Try(s, MainStep(fd));
      && MainLeft(len, s.main) > MainLeft(len, t.main) >= 0
      && |t.workers| >= |s.workers| && forall w :: 0 <= w < |s.workers| ==> t.workers[w] == s.workers[w]
  {
    ReachableInv(len, s);
    assert s.main.Scanning? ==> s.main.i <= len;
    hide Inv, Reachable, StepMain, MainLeft, Legal;
    StepKeepsInv(s, MainStep(fd));
    MainStatement(s, fd);
  }

  lemma WorkerStatement(s: State, w: nat)
    requires Enabled(s, WorkerStep(w)) && Legal(s, WorkerStep(w))
    ensures
      var t := StepWorker(s, w);
      && t.workers == s.workers[w := t.workers[w]] && t.main == s.main && t.accepted == s.accepted
      && WorkerLeft(t.workers[w].pc) == WorkerLeft(s.workers[w].pc) - 1
  {
  }

  /** A turn of a running worker takes it one statement further, and no other worker or main. */
  lemma WorkerTurn(len: nat, s: State, w: nat)
    requires Reachable(len, s) && w < |s.workers|
    ensures Inv(s)
    ensures
      var t := Try(s, WorkerStep(w));
      && |t.workers| == |s.workers| && t.main == s.main && t.accepted == s.accepted
      && WorkerLeft(t.workers[w].pc) == (if s.workers[w].pc == Finished then 0 else WorkerLeft(s.workers[w].pc) - 1)
      && forall v :: 0 <= v < |s.workers| && v != w ==> t.workers[v] == s.workers[v]
  {
    ReachableInv(len, s);
    hide Inv, Reachable, StepWorker, Legal;
    if s.workers[w].pc != Finished {
      StepKeepsInv(s, WorkerStep(w));
      WorkerStatement(s, w);
    }
  }

  // ---------- Runs ----------

  function TurnsOf(schedule: seq<Action>, w: nat): nat {
    if schedule == [] then 0 else (if schedule[0] == WorkerStep(w) then 1 else 0) + TurnsOf(schedule[1..], w)
  }

  function MainTurns(schedule: seq<Action>): nat {
    if schedule == [] then 0 else (if schedule[0].MainStep? then 1 else 0) + MainTurns(schedule[1..])
  }

  lemma TryReachable(len: nat, s: State, a: Action)
    requires Reachable(len, s)
    ensures Inv(s) && Reachable(len, Try(s, a))
  {
    ReachableInv(len, s);
    hide Inv, Reachable;
    if Enabled(s, a) {
      var t := Next(len, s, a);
    }
  }

  lemma OthersTurn(len: nat, s: State, a: Action, w: nat)
    requires Reachable(len, s) && w < |s.workers| && a != WorkerStep(w)
    ensures Inv(s)
    ensures
      var t := Try(s, a);
      w < |t.workers| && t.workers[w] == s.workers[w]
  {
    ReachableInv(len, s);
    hide Inv, Reachable;
    if a.WorkerStep? && a.w < |s.workers| {
      WorkerTurn(len, s, a.w);
    } else if a.MainStep? && s.main != Accepting {
      MainTurn(len, s, a.fd);
    }
  }

  /**
   A worker answers, closes and releases its slot within four turns of its own, whatever main, the
   other workers and new connections do in between.
   */
  lemma {:induction false} WorkerFinishes(len: nat, s: State, schedule: seq<Action>, w: nat)
    requires Reachable(len, s) && w < |s.workers| && TurnsOf(schedule, w) >= WorkerLeft(s.workers[w].pc)
    ensures Inv(s)
    ensures
      var t := Exec(s, schedule);
      w < |t.workers| && t.workers[w].pc == Finished
    decreases |schedule|
  {
    ReachableInv(len, s);
    hide Inv, Reachable, Try;
    if schedule != [] {
      var a := schedule[0];
      TryReachable(len, s, a);
      if a == WorkerStep(w) {
        WorkerTurn(len, s, w);
      } else {
        OthersTurn(len, s, a, w);
      }
      WorkerFinishes(len, Try(s, a), schedule[1..], w);
    }
  }

  lemma WorkersSpareMain(len: nat, s: State, a: Action)
    requires Reachable(len, s) && a.WorkerStep?
    ensures Inv(s) && Try(s, a).main == s.main
  {
    ReachableInv(len, s);
    hide Inv, Reachable;
    if a.w < |s.workers| {
      WorkerTurn(len, s, a.w);
    }
  }

  lemma AnyTurnOfMain(len: nat, s: State, a: Action)
    requires Reachable(len, s) && s.main != Accepting
    ensures Inv(s) && MainLeft(len, s.main) > 0 && MainLeft(len, Try(s, a).main) >= 0
    ensures MainLeft(len, Try(s, a).main) <= MainLeft(len, s.main) - if a.MainStep? then 1 else 0
  {
    MainTurn(len, s, 0);
    hide Inv, Reachable, MainLeft, Try;
    if a.MainStep? {
      MainTurn(len, s, a.fd);
    } else {
      WorkersSpareMain(len, s, a);
    }
  }

  lemma ExecUnfold(s: State, schedule: seq<Action>, k: nat)
    requires Inv(s) && k < |schedule|
    ensures Exec(s, schedule[..k + 1]) == Exec(Try(s, schedule[0]), schedule[1..][..k])
  {
    hide Inv, Try;
    assert schedule[..k + 1][0] == schedule[0] && schedule[..k + 1][1..] == schedule[1..][..k];
  }

  /**
   Main is back at accept within its own straight line and one turn per slot, whatever the workers
   do in between: at some point of the schedule.
   */
  lemma {:induction false} MainReturns(len: nat, s: State, schedule: seq<Action>) returns (k: nat)
    requires Reachable(len, s) && MainTurns(schedule) >= MainLeft(len, s.main)
    ensures Inv(s)
    ensures k <= |schedule| && Exec(s, schedule[..k]).main == Accepting
    decreases |schedule|
  {
    ReachableInv(len, s);
    if s.main == Accepting {
      hide Inv, Reachable, Try, MainTurns, MainLeft;
      k := 0;
    } else {
      hide Inv, Reachable, Try, MainLeft, Exec;
      AnyTurnOfMain(len, s, MainStep(0));
      AnyTurnOfMain(len, s, schedule[0]);
      TryReachable(len, s, schedule[0]);
      var rest := MainReturns(len, Try(s, schedule[0]), schedule[1..]);
      ExecUnfold(s, schedule, rest);
      k := rest + 1;
    }
  }

  // ---------- A number reissued before the release ----------

  /**
   The kernel can hand out a number between a worker's close and the release of its slot: then two
   running workers' slots show the same descriptor, and only the second worker owns it.
   */
  lemma NumberReissued(len: nat, fd: int) returns (s: State)
    requires len >= 2
    ensures Reachable(len, s) && |s.pool| == len && |s.workers| == 2
    ensures s.workers[0].pc == Releasing && s.workers[0].slot == 0 && s.pool[0].fd == fd && !s.pool[0].free
    ensures s.workers[1].pc == Reading && s.workers[1].slot == 1 && s.pool[1].fd == fd && s.open == map[fd := 1]
    ensures !Owner(s, 0, fd) && Owner(s, 1, fd)
  {
    InitialReachable(len);
    hide Reachable, Inv;
    var s1 := Connect(len, Initial(len), fd, 0);
    var s2 := Next(len, s1, WorkerStep(0));
    var s3 := Next(len, s2, WorkerStep(0));
    var s4 := Next(len, s3, WorkerStep(0));
    assert s4.open == map[] && s4.accepted == 1;
    s := Connect(len, s4, fd, 1);
  }
}
