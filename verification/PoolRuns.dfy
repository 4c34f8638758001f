/** What every interleaving of the server's main thread and its workers guarantees. */
module PoolRuns {
  import opened Sums
  import opened PoolModel

  /** One scheduling decision: an action that cannot happen now changes nothing. */
  function Try(s: State, a: Action): (r: State)
    requires Inv(s)
    ensures Inv(r) && |r.pool| == |s.pool|
  {
    if Enabled(s, a) then StepKeepsInv(s, a); Step(s, a) else s
  }

  function Exec(s: State, schedule: seq<Action>): (r: State)
    requires Inv(s)
    ensures Inv(r) && |r.pool| == |s.pool|
    decreases |schedule|
  {
    hide Inv;
    if schedule == [] then s else Exec(Try(s, schedule[0]), schedule[1..])
  }

  lemma {:induction false} ExecSnoc(s: State, u: seq<Action>, a: Action)
    requires Inv(s)
    ensures Exec(s, u + [a]) == Try(Exec(s, u), a)
    decreases |u|
  {
    hide Inv;
    if u == [] {
      assert Exec(s, [a]) == Exec(Try(s, a), []) && u + [a] == [a];
    } else {
      assert (u + [a])[1..] == u[1..] + [a];
      ExecSnoc(Try(s, u[0]), u[1..], a);
    }
  }

  /** Some schedule leads from the initialised pool of `len` slots to `s`. */
  ghost predicate Reachable(len: nat, s: State) {
    InitialInv(len);
    exists schedule :: s == Exec(Initial(len), schedule)
  }

  lemma ReachableInv(len: nat, s: State)
    requires Reachable(len, s)
    ensures Inv(s) && |s.pool| == len
  {
    InitialInv(len);
    var schedule :| s == Exec(Initial(len), schedule);
  }

  lemma InitialReachable(len: nat)
    ensures Reachable(len, Initial(len))
  {
    InitialInv(len);
    assert Exec(Initial(len), []) == Initial(len);
  }

  lemma Next(len: nat, s: State, a: Action) returns (t: State)
    requires Reachable(len, s) && Enabled(s, a)
    ensures Legal(s, a) && t == Step(s, a) && Reachable(len, t)
  {
    hide Inv;
    InitialInv(len);
    ReachableInv(len, s);
    StepKeepsInv(s, a);
    var schedule :| s == Exec(Initial(len), schedule);
    ExecSnoc(Initial(len), schedule, a);
    t := Step(s, a);
    assert t == Exec(Initial(len), schedule + [a]);
  }

  // ---------- Slots ----------

  /**
   Two workers that may still touch their slot never share it, and a slot is marked free exactly
   when neither such a worker nor main's setup holds it.
   */
  lemma SlotExclusivity(len: nat, s: State)
    requires Reachable(len, s)
    ensures forall v, w :: 0 <= v < w < |s.workers| && Live(s.workers[v]) && Live(s.workers[w]) ==>
              s.workers[v].slot != s.workers[w].slot
    ensures forall k :: 0 <= k < len ==>
              (s.pool[k].free <==>
                 !SettingUp(s.main, k) &&
                 forall w :: 0 <= w < |s.workers| && Live(s.workers[w]) ==> s.workers[w].slot != k)
  {
    ReachableInv(len, s);
    hide DescriptorsOk, OwnedOk, CountsOk, RepliesOk, DetachedOk, ScanOk;
    forall k | 0 <= k < len && !s.pool[k].free && !SettingUp(s.main, k)
      ensures exists w :: 0 <= w < |s.workers| && Live(s.workers[w]) && s.workers[w].slot == k
    {
      assert s.workers[s.pool[k].thread].slot == k;
    }
  }

  /** There are never more live workers, or slots in use, than the pool has slots. */
  lemma WorkersBounded(len: nat, s: State)
    requires Reachable(len, s)
    ensures Sum(s.workers, LiveWeight) + Setup(s.main) == Sum(s.pool, BusyWeight) <= len
  {
    ReachableInv(len, s);
    SumTight(s.pool, BusyWeight, 1);
  }

  // ---------- Descriptors ----------

  /**
   The ledger: accepted connections are the dropped, the closed and the open ones; every open
   descriptor has an owner, and no two owners, even when the kernel reuses its number.
   */
  lemma DescriptorLedger(len: nat, s: State)
    requires Reachable(len, s)
    ensures s.accepted == s.dropped + s.closed + |s.open|
    ensures forall fd :: fd in s.open ==> (MainHolds(s.main) && s.main.fd == fd) || exists w: nat :: Owner(s, w, fd)
    ensures forall v: nat, w: nat, fd :: Owner(s, v, fd) && Owner(s, w, fd) ==> v == w
    ensures forall w: nat, fd :: Owner(s, w, fd) ==> fd in s.open && !(MainHolds(s.main) && s.main.fd == fd)
  {
    ReachableInv(len, s);
    hide SlotsOk, RepliesOk, DetachedOk, ScanOk, Sum;
    forall v: nat, w: nat, fd | Owner(s, v, fd) && Owner(s, w, fd) ensures v == w {
      assert s.workers[v].conn == s.open[fd] == s.workers[w].conn;
    }
  }

  /** A worker reads, answers and closes the connection it was started for, and no other. */
  lemma WorkerServesItsOwn(len: nat, s: State, w: nat)
    requires Reachable(len, s) && w < |s.workers| && HoldsFd(s.workers[w])
    ensures Legal(s, WorkerStep(w)) && s.open[s.pool[s.workers[w].slot].fd] == s.workers[w].conn
    ensures Unanswered(s.workers[w]) ==> s.workers[w].conn !in s.replies
  {
    ReachableInv(len, s);
    hide SlotsOk, OwnedOk, CountsOk, DetachedOk, ScanOk;
  }

  /** Closing takes one descriptor off its owner and leaves every other owner's descriptor open. */
  lemma CloseIsOwn(len: nat, s: State, w: nat)
    requires Reachable(len, s) && w < |s.workers| && s.workers[w].pc == Closing
    ensures Legal(s, WorkerStep(w)) && StepWorker(s, w).closed == s.closed + 1
    ensures forall fd :: Owner(s, w, fd) ==> fd in s.open && fd !in StepWorker(s, w).open
    ensures forall v: nat, fd :: v != w && Owner(s, v, fd) ==>
              fd in StepWorker(s, w).open && Owner(StepWorker(s, w), v, fd)
  {
    ReachableInv(len, s);
    DescriptorLedger(len, s);
    hide DescriptorsOk, OwnedOk, CountsOk, RepliesOk, DetachedOk, ScanOk;
    WorkerServesItsOwn(len, s, w);
    assert Owner(s, w, s.pool[s.workers[w].slot].fd);
    forall v: nat, fd | v != w && Owner(s, v, fd)
      ensures fd in StepWorker(s, w).open && Owner(StepWorker(s, w), v, fd)
    {
      OwnerSurvivesWorker(s, w, v, fd);
    }
  }

  /** When main is back at accept and all workers are done, every connection was answered once or dropped. */
  lemma QuietMeansServed(len: nat, s: State)
    requires Reachable(len, s) && s.main == Accepting
    requires forall w :: 0 <= w < |s.workers| ==> s.workers[w].pc == Finished
    ensures s.accepted == s.dropped + |s.replies| && |s.open| == 0
    ensures forall i, j :: 0 <= i < j < |s.replies| ==> s.replies[i] != s.replies[j]
    ensures forall k :: 0 <= k < len ==> s.pool[k].free
    ensures |s.detached| == |s.workers| && forall i :: 0 <= i < |s.detached| ==> s.detached[i] == i
  {
    ReachableInv(len, s);
    SumConstant(s.workers, ClosedWeight, 1);
    SumConstant(s.workers, RepliedWeight, 1);
    hide DescriptorsOk, OwnedOk, ScanOk, Sum;
  }

  // ---------- The scan ----------

  /**
   A scan interleaved with releases: a claimed slot is still free when main marks it, and every
   lower slot was busy already when the connection was accepted; a dropped connection found the
   whole pool busy at its accept. So a connection that arrives while some slot is free is never
   dropped, and gets a slot no higher than the lowest one free on its arrival.
   */
  lemma ScanUnderRelease(len: nat, s: State)
    requires Reachable(len, s)
    ensures s.main.Claiming? ==>
              |s.atAccept| == len && s.main.k < len && s.pool[s.main.k].free &&
              forall j :: 0 <= j < len && s.atAccept[j].free ==> s.main.k <= j
    ensures s.main.Dropping? ==> |s.atAccept| == len && forall j :: 0 <= j < len ==> !s.atAccept[j].free
  {
    ReachableInv(len, s);
    hide DescriptorsOk, OwnedOk, CountsOk, RepliesOk, DetachedOk;
  }

  /** The lowest free slot, or the length of the pool. */
  function FirstFree(pool: seq<Slot>, from: nat): (k: nat)
    requires from <= |pool|
    ensures from <= k <= |pool|
    ensures forall j :: from <= j < k ==> !pool[j].free
    ensures k < |pool| ==> pool[k].free
    decreases |pool| - from
  {
    if from == |pool| || pool[from].free then from else FirstFree(pool, from + 1)
  }

  /** Main's probes alone, as far as slot k, pass over busy slots only. */
  lemma {:induction false} ScanTo(len: nat, s: State, k: nat) returns (t: State)
    requires Reachable(len, s) && s.main.Scanning? && s.main.i <= k <= |s.pool|
    requires forall j :: s.main.i <= j < k ==> !s.pool[j].free
    ensures Reachable(len, t) && t == s.(main := Scanning(s.main.fd, k))
    decreases k - s.main.i
  {
    if s.main.i == k {
      t := s;
    } else {
      var u := Next(len, s, MainStep(0));
      t := ScanTo(len, u, k);
    }
  }

  /** Undisturbed, the interleaved scan finds what the sequential search finds. */
  lemma UndisturbedScan(len: nat, s: State) returns (t: State)
    requires Reachable(len, s) && s.main.Scanning? && s.main.i == 0
    ensures Reachable(len, t) && t.pool == s.pool
    ensures
      var k := FirstFree(s.pool, 0);
      t.main == if k < |s.pool| then Claiming(s.main.fd, k) else Dropping(s.main.fd)
  {
    ReachableInv(len, s);
    hide Reachable, Inv;
    var u := ScanTo(len, s, FirstFree(s.pool, 0));
    t := Next(len, u, MainStep(0));
  }

  // ---------- A full pool may empty before the drop ----------

  /** k connections in, all of them still being read. */
  ghost predicate Filled(len: nat, s: State, k: nat) {
    && Reachable(len, s) && |s.pool| == len && s.main == Accepting && |s.workers| == k
    && (forall w :: 0 <= w < k ==> s.workers[w].pc == Reading && s.workers[w].slot == w)
    && (forall fd :: fd in s.open ==> 0 <= fd < k)
    && (forall j :: 0 <= j < len ==> (s.pool[j].free <==> j >= k))
  }

  lemma {:induction false} Fill(len: nat, k: nat) returns (s: State)
    requires k <= len
    ensures Filled(len, s, k)
  {
    if k == 0 {
      InitialReachable(len);
      s := Initial(len);
    } else {
      var a := Fill(len, k - 1);
      s := AddConnection(len, a, k - 1);
    }
  }

  /** Main serves one connection undisturbed, into slot k, the lowest free one. */
  lemma Connect(len: nat, s: State, fd: int, k: nat) returns (t: State)
    requires Reachable(len, s) && |s.pool| == len && s.main == Accepting && fd !in s.open && k < len
    requires s.pool[k].free && forall j :: 0 <= j < k ==> !s.pool[j].free
    ensures Reachable(len, t) && t.main == Accepting && t.accepted == s.accepted + 1
    ensures t.open == s.open[fd := s.accepted]
    ensures t.pool == s.pool[k := Slot(fd, |s.workers|, false)]
    ensures t.workers == s.workers + [Worker(Reading, k, s.accepted)]
  {
    hide Reachable, Inv;
    var s1 := Next(len, s, MainStep(fd));
    var s2 := ScanTo(len, s1, k);
    var s3 := Next(len, s2, MainStep(fd));
    var s4 := Next(len, s3, MainStep(fd));
    var s5 := Next(len, s4, MainStep(fd));
    var s6 := Next(len, s5, MainStep(fd));
    t := Next(len, s6, MainStep(fd));
    assert t.pool == s.pool[k := Slot(fd, |s.workers|, false)];
  }

  lemma AddConnection(len: nat, s: State, k: nat) returns (t: State)
    requires k < len && Filled(len, s, k)
    ensures Filled(len, t, k + 1)
  {
    hide Reachable;
    t := Connect(len, s, k, k);
  }

  lemma FinishOne(len: nat, s: State, w: nat) returns (t: State)
    requires Reachable(len, s) && w < |s.workers| && s.workers[w].pc == Reading && s.workers[w].slot < |s.pool|
    ensures Reachable(len, t) && t.main == s.main
    ensures t.pool == s.pool[s.workers[w].slot := s.pool[s.workers[w].slot].(free := true)]
    ensures t.workers == s.workers[w := s.workers[w].(pc := Finished)]
  {
    hide Reachable, Inv;
    var s1 := Next(len, s, WorkerStep(w));
    var s2 := Next(len, s1, WorkerStep(w));
    var s3 := Next(len, s2, WorkerStep(w));
    t := Next(len, s3, WorkerStep(w));
  }

  lemma {:induction false} FinishFrom(len: nat, s: State, n: nat) returns (t: State)
    requires Reachable(len, s) && |s.pool| == len == |s.workers| && n <= len
    requires forall w :: n <= w < len ==> s.workers[w].pc == Reading && s.workers[w].slot == w
    requires forall j :: 0 <= j < n ==> s.pool[j].free
    ensures Reachable(len, t) && t.main == s.main && |t.pool| == len && forall j :: 0 <= j < len ==> t.pool[j].free
    decreases len - n
  {
    hide Reachable, Inv;
    if n == len {
      t := s;
    } else {
      var u := FinishOne(len, s, n);
      t := FinishFrom(len, u, n + 1);
    }
  }

  /** For any pool, some run drops a connection at a moment when every slot is free. */
  lemma DropDespiteFreeSlots(len: nat) returns (s: State)
    ensures Reachable(len, s) && s.main.Dropping? && |s.pool| == len
    ensures forall k :: 0 <= k < len ==> s.pool[k].free
  {
    var a := Fill(len, len);
    var s1 := Next(len, a, MainStep(len));
    var s2 := ScanTo(len, s1, len);
    var s3 := Next(len, s2, MainStep(0));
    s := FinishFrom(len, s3, 0);
  }
}
