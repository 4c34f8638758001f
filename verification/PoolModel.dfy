/**
 The TCP server's pool of connection slots: one main thread accepts, scans for a free slot and
 starts a worker; workers answer, close their descriptor and release their slot at any time.
 */
module PoolModel {
  import opened Sums

  /** clientdata: descriptor, thread and whether the slot is free. */
  datatype Slot = Slot(fd: int, thread: nat, free: bool)

  /** The statement a worker is about to execute. */
  datatype WorkerPc =
    | Reading    // read(data->fd)
    | Writing    // write(data->fd, "hola")
    | Closing    // close(data->fd)
    | Releasing  // data->free = true
    | Finished

  /** A worker's argument, and (history) the connection it was started for. */
  datatype Worker = Worker(pc: WorkerPc, slot: nat, conn: nat)

  /** The statement main is about to execute, with its locals newfd and the scan's index. */
  datatype MainPc =
    | Accepting
    | Scanning(fd: int, i: nat)   // if clients[i].free, at the end return -1
    | Dropping(fd: int)           // close(newfd)
    | Claiming(fd: int, k: nat)   // cd->free = false
    | Storing(fd: int, k: nat)    // cd->fd = newfd
    | Spawning(fd: int, k: nat)   // pthread_create(&cd->thread, ..., cd)
    | Detaching(k: nat)           // pthread_detach(cd->thread)

  /**
   `open` is the kernel's descriptor table: which connection each open descriptor belongs to;
   connections are numbered in the order accepted. The remaining fields are history: descriptors
   closed by main and by workers, connections answered, threads detached, and the pool as it was
   when the current connection was accepted.
   */
  datatype State = State(
    pool: seq<Slot>, main: MainPc, workers: seq<Worker>,
    open: map<int, nat>, accepted: nat,
    dropped: nat, closed: nat, replies: seq<nat>, detached: seq<nat>, atAccept: seq<Slot>)

  /** Main's step names the descriptor the kernel hands out, should it be an accept. */
  datatype Action = MainStep(fd: int) | WorkerStep(w: nat)

  /** After cd_init. */
  function Initial(len: nat): State {
    State(seq(len, k => Slot(0, 0, true)), Accepting, [], map[], 0, 0, 0, [], [], [])
  }

  predicate Enabled(s: State, a: Action) {
    match a
    case MainStep(fd) => s.main == Accepting ==> fd !in s.open
    case WorkerStep(w) => w < |s.workers| && s.workers[w].pc != Finished
  }

  /** Indices are inside the pool and descriptors used are open. */
  predicate Legal(s: State, a: Action) {
    match a
    case MainStep(_) =>
      (match s.main
       case Claiming(_, k) => k < |s.pool|
       case Storing(_, k) => k < |s.pool|
       case Spawning(fd, k) => k < |s.pool| && fd in s.open
       case Detaching(k) => k < |s.pool|
       case Dropping(fd) => fd in s.open
       case _ => true)
    case WorkerStep(w) =>
      w < |s.workers| && s.workers[w].slot < |s.pool| &&
      (s.workers[w].pc in {Reading, Writing, Closing} ==> s.pool[s.workers[w].slot].fd in s.open)
  }

  function StepMain(s: State, newfd: int): State
    requires Enabled(s, MainStep(newfd)) && Legal(s, MainStep(newfd))
  {
    match s.main
    case Accepting =>
      s.(main := Scanning(newfd, 0), open := s.open[newfd := s.accepted], accepted := s.accepted + 1,
         atAccept := s.pool)
    case Scanning(fd, i) =>
      s.(main := if i >= |s.pool| then Dropping(fd)
                 else if s.pool[i].free then Claiming(fd, i)
                 else Scanning(fd, i + 1))
    case Dropping(fd) =>
      s.(main := Accepting, open := s.open - {fd}, dropped := s.dropped + 1)
    case Claiming(fd, k) =>
      s.(main := Storing(fd, k), pool := s.pool[k := s.pool[k].(free := false)])
    case Storing(fd, k) =>
      s.(main := Spawning(fd, k), pool := s.pool[k := s.pool[k].(fd := fd)])
    case Spawning(fd, k) =>
      s.(main := Detaching(k), pool := s.pool[k := s.pool[k].(thread := |s.workers|)],
         workers := s.workers + [Worker(Reading, k, s.open[fd])])
    case Detaching(k) =>
      s.(main := Accepting, detached := s.detached + [s.pool[k].thread])
  }

  function StepWorker(s: State, w: nat): State
    requires Enabled(s, WorkerStep(w)) && Legal(s, WorkerStep(w))
  {
    var me := s.workers[w];
    var fd := s.pool[me.slot].fd;
    match me.pc
    case Reading => s.(workers := s.workers[w := me.(pc := Writing)])
    case Writing => s.(workers := s.workers[w := me.(pc := Closing)], replies := s.replies + [s.open[fd]])
    case Closing => s.(workers := s.workers[w := me.(pc := Releasing)], open := s.open - {fd}, closed := s.closed + 1)
    case Releasing =>
      s.(workers := s.workers[w := me.(pc := Finished)], pool := s.pool[me.slot := s.pool[me.slot].(free := true)])
  }

  function Step(s: State, a: Action): State
    requires Enabled(s, a) && Legal(s, a)
  {
    match a
    case MainStep(fd) => StepMain(s, fd)
    case WorkerStep(w) => StepWorker(s, w)
  }

  // ---------- The invariant ----------

  /** The worker may still touch its slot. */
  predicate Live(m: Worker) { m.pc != Finished }

  /** The worker still has its connection open. */
  predicate HoldsFd(m: Worker) { m.pc.Reading? || m.pc.Writing? || m.pc.Closing? }

  predicate Unanswered(m: Worker) { m.pc.Reading? || m.pc.Writing? }

  function LiveWeight(m: Worker): int { if Live(m) then 1 else 0 }

  function ClosedWeight(m: Worker): int { if HoldsFd(m) then 0 else 1 }

  function RepliedWeight(m: Worker): int { if Unanswered(m) then 0 else 1 }

  function BusyWeight(c: Slot): int { if c.free then 0 else 1 }

  /** Main has a descriptor of its own. */
  predicate MainHolds(m: MainPc) { !m.Accepting? && !m.Detaching? }

  /** Main has marked slot k and not yet handed it to a worker. */
  predicate SettingUp(m: MainPc, k: nat) {
    (m.Storing? || m.Spawning?) && m.k == k
  }

  function Setup(m: MainPc): int { if m.Storing? || m.Spawning? then 1 else 0 }

  /** A slot is busy exactly while a live worker or main's setup holds it, and only one does. */
  predicate SlotsOk(pool: seq<Slot>, main: MainPc, workers: seq<Worker>) {
    && (forall w :: 0 <= w < |workers| ==> workers[w].slot < |pool|)
    && (forall w :: 0 <= w < |workers| && Live(workers[w]) ==>
          !pool[workers[w].slot].free && !SettingUp(main, workers[w].slot) && pool[workers[w].slot].thread == w)
    && (forall k :: 0 <= k < |pool| && !pool[k].free && !SettingUp(main, k) ==>
          pool[k].thread < |workers| && workers[pool[k].thread].slot == k && Live(workers[pool[k].thread]))
    && (main.Claiming? ==> main.k < |pool| && pool[main.k].free)
    && (main.Storing? || main.Spawning? ==> main.k < |pool| && !pool[main.k].free)
    && (main.Detaching? ==> main.k < |pool| && |workers| > 0 && pool[main.k].thread == |workers| - 1)
  }

  /** Every descriptor in use is open and belongs to the user's own connection. */
  predicate DescriptorsOk(s: State) {
    && (forall w :: 0 <= w < |s.workers| ==> s.workers[w].slot < |s.pool| && s.workers[w].conn < s.accepted)
    && (forall w :: 0 <= w < |s.workers| && HoldsFd(s.workers[w]) ==>
          && s.pool[s.workers[w].slot].fd in s.open
          && s.open[s.pool[s.workers[w].slot].fd] == s.workers[w].conn)
    && (forall v, w :: 0 <= v < w < |s.workers| ==> s.workers[v].conn < s.workers[w].conn)
    && (MainHolds(s.main) ==>
          && s.main.fd in s.open && s.open[s.main.fd] == s.accepted - 1
          && (forall w :: 0 <= w < |s.workers| ==> s.workers[w].conn < s.accepted - 1))
    && (s.main.Spawning? ==> s.main.k < |s.pool| && s.pool[s.main.k].fd == s.main.fd)
  }

  predicate Owner(s: State, w: nat, fd: int) {
    w < |s.workers| && HoldsFd(s.workers[w]) && s.workers[w].slot < |s.pool| && s.pool[s.workers[w].slot].fd == fd
  }

  /** Every open descriptor is main's or some worker's: none leaks. */
  ghost predicate OwnedOk(s: State) {
    forall fd :: fd in s.open ==> (MainHolds(s.main) && s.main.fd == fd) || exists w: nat :: Owner(s, w, fd)
  }

  /** The ledgers: descriptors, connections, answers, slots and detached threads. */
  predicate CountsOk(s: State) {
    var holding := if MainHolds(s.main) then 1 else 0;
    && s.accepted == s.dropped + s.closed + |s.open|
    && s.accepted == s.dropped + |s.workers| + holding
    && s.closed == Sum(s.workers, ClosedWeight)
    && |s.replies| == Sum(s.workers, RepliedWeight)
    && Sum(s.pool, BusyWeight) == Sum(s.workers, LiveWeight) + Setup(s.main)
  }

  /** No connection is answered twice. */
  predicate RepliesOk(workers: seq<Worker>, main: MainPc, accepted: nat, replies: seq<nat>) {
    && (forall i, j :: 0 <= i < j < |replies| ==> replies[i] != replies[j])
    && (forall i :: 0 <= i < |replies| ==> replies[i] < accepted - if MainHolds(main) then 1 else 0)
    && (forall w :: 0 <= w < |workers| && Unanswered(workers[w]) ==> workers[w].conn !in replies)
  }

  /** Threads are detached one by one, in the order created. */
  predicate DetachedOk(workers: seq<Worker>, main: MainPc, detached: seq<nat>) {
    && |detached| == |workers| - (if main.Detaching? then 1 else 0)
    && (forall i :: 0 <= i < |detached| ==> detached[i] == i)
  }

  /** While main scans, slots only become free, so what it found busy was busy at the accept. */
  predicate ScanOk(pool: seq<Slot>, main: MainPc, atAccept: seq<Slot>) {
    && (main.Scanning? || main.Claiming? || main.Dropping? ==>
          |atAccept| == |pool| && forall k :: 0 <= k < |pool| && !pool[k].free ==> !atAccept[k].free)
    && (main.Scanning? ==> main.i <= |pool| && forall j :: 0 <= j < main.i ==> !atAccept[j].free)
    && (main.Claiming? ==> main.k < |pool| && forall j :: 0 <= j < main.k ==> !atAccept[j].free)
    && (main.Dropping? ==> forall j :: 0 <= j < |pool| ==> !atAccept[j].free)
  }

  ghost predicate Inv(s: State) {
    && SlotsOk(s.pool, s.main, s.workers)
    && DescriptorsOk(s)
    && OwnedOk(s)
    && CountsOk(s)
    && RepliesOk(s.workers, s.main, s.accepted, s.replies)
    && DetachedOk(s.workers, s.main, s.detached)
    && ScanOk(s.pool, s.main, s.atAccept)
  }

  // ---------- Preservation ----------

  lemma InitialInv(len: nat)
    ensures Inv(Initial(len))
  {
    SumConstant(Initial(len).pool, BusyWeight, 0);
  }

  lemma InvGivesLegal(s: State, a: Action)
    requires Inv(s) && Enabled(s, a)
    ensures Legal(s, a)
  {
  }

  lemma WorkerKeepsSlots(s: State, w: nat)
    requires SlotsOk(s.pool, s.main, s.workers) && Enabled(s, WorkerStep(w)) && Legal(s, WorkerStep(w))
    ensures var t := StepWorker(s, w); SlotsOk(t.pool, t.main, t.workers)
  {
    var me, t := s.workers[w], StepWorker(s, w);
    assert t.workers == s.workers[w := t.workers[w]] && t.workers[w].slot == me.slot;
    if me.pc == Releasing {
      assert forall k :: 0 <= k < |t.pool| && k != me.slot ==> t.pool[k] == s.pool[k];
    } else {
      assert t.pool == s.pool && Live(t.workers[w]);
    }
  }

  lemma WorkerKeepsDescriptors(s: State, w: nat)
    requires DescriptorsOk(s) && Enabled(s, WorkerStep(w)) && Legal(s, WorkerStep(w))
    ensures DescriptorsOk(StepWorker(s, w))
  {
  }

  lemma OwnerSurvivesWorker(s: State, w: nat, v: nat, fd: int)
    requires SlotsOk(s.pool, s.main, s.workers) && Enabled(s, WorkerStep(w)) && Legal(s, WorkerStep(w))
    requires Owner(s, v, fd) && fd in StepWorker(s, w).open
    ensures Owner(StepWorker(s, w), v, fd)
  {
  }

  lemma OwnerSurvivesMain(s: State, fd: int, v: nat, d: int)
    requires SlotsOk(s.pool, s.main, s.workers) && Enabled(s, MainStep(fd)) && Legal(s, MainStep(fd))
    requires Owner(s, v, d)
    ensures Owner(StepMain(s, fd), v, d)
  {
  }

  lemma WorkerKeepsOwned(s: State, w: nat)
    requires SlotsOk(s.pool, s.main, s.workers) && OwnedOk(s) && Enabled(s, WorkerStep(w)) && Legal(s, WorkerStep(w))
    ensures OwnedOk(StepWorker(s, w))
  {
    hide SlotsOk, Owner;
    var t := StepWorker(s, w);
    forall fd | fd in t.open && !(MainHolds(t.main) && t.main.fd == fd) ensures exists v: nat :: Owner(t, v, fd) {
      var v: nat :| Owner(s, v, fd);
      OwnerSurvivesWorker(s, w, v, fd);
    }
  }

  lemma WorkerSums(s: State, w: nat)
    requires Enabled(s, WorkerStep(w)) && Legal(s, WorkerStep(w)) && !s.pool[s.workers[w].slot].free
    ensures
      var pc, t := s.workers[w].pc, StepWorker(s, w);
      && Sum(t.workers, ClosedWeight) == Sum(s.workers, ClosedWeight) + (if pc == Closing then 1 else 0)
      && Sum(t.workers, RepliedWeight) == Sum(s.workers, RepliedWeight) + (if pc == Writing then 1 else 0)
      && Sum(t.workers, LiveWeight) == Sum(s.workers, LiveWeight) - (if pc == Releasing then 1 else 0)
      && Sum(t.pool, BusyWeight) == Sum(s.pool, BusyWeight) - (if pc == Releasing then 1 else 0)
      && |t.open| == |s.open| - (if pc == Closing then 1 else 0)
  {
    hide Sum;
    var me, t := s.workers[w], StepWorker(s, w);
    var x := t.workers[w];
    SumUpdate(s.workers, ClosedWeight, w, x);
    SumUpdate(s.workers, RepliedWeight, w, x);
    SumUpdate(s.workers, LiveWeight, w, x);
    SumUpdate(s.pool, BusyWeight, me.slot, s.pool[me.slot].(free := true));
    if me.pc == Closing {
      RemoveOne(s.open, s.pool[me.slot].fd);
    }
  }

  lemma WorkerKeepsCounts(s: State, w: nat)
    requires SlotsOk(s.pool, s.main, s.workers) && CountsOk(s)
    requires Enabled(s, WorkerStep(w)) && Legal(s, WorkerStep(w))
    ensures CountsOk(StepWorker(s, w))
  {
    assert !s.pool[s.workers[w].slot].free;
    hide Sum, SlotsOk;
    WorkerSums(s, w);
  }

  lemma RemoveOne(m: map<int, nat>, fd: int)
    requires fd in m
    ensures |m - {fd}| == |m| - 1
  {
    assert (m - {fd}).Keys == m.Keys - {fd};
    assert |m.Keys| == |m| && |(m - {fd}).Keys| == |m - {fd}|;
  }

  lemma AddOne(m: map<int, nat>, fd: int, c: nat)
    requires fd !in m
    ensures |m[fd := c]| == |m| + 1
  {
    assert m[fd := c].Keys == m.Keys + {fd};
  }

  lemma WorkerKeepsReplies(s: State, w: nat)
    requires DescriptorsOk(s) && RepliesOk(s.workers, s.main, s.accepted, s.replies)
    requires Enabled(s, WorkerStep(w)) && Legal(s, WorkerStep(w))
    ensures var t := StepWorker(s, w); RepliesOk(t.workers, t.main, t.accepted, t.replies)
  {
    var t := StepWorker(s, w);
    assert forall v :: 0 <= v < |t.workers| && v != w ==> t.workers[v] == s.workers[v];
    assert s.workers[w].pc == Writing ==> t.replies == s.replies + [s.workers[w].conn];
  }

  lemma WorkerKeepsScan(s: State, w: nat)
    requires DetachedOk(s.workers, s.main, s.detached) && ScanOk(s.pool, s.main, s.atAccept)
    requires Enabled(s, WorkerStep(w)) && Legal(s, WorkerStep(w))
    ensures var t := StepWorker(s, w); DetachedOk(t.workers, t.main, t.detached) && ScanOk(t.pool, t.main, t.atAccept)
  {
  }

  lemma MainKeepsSlots(s: State, fd: int)
    requires SlotsOk(s.pool, s.main, s.workers) && Enabled(s, MainStep(fd)) && Legal(s, MainStep(fd))
    ensures var t := StepMain(s, fd); SlotsOk(t.pool, t.main, t.workers)
  {
    match s.main
    case Claiming(_, _) => ClaimKeepsSlots(s.pool, s.main, s.workers);
    case Storing(_, _) => StoreKeepsSlots(s.pool, s.main, s.workers);
    case Spawning(_, k) =>
      SpawnKeepsSlots(s.pool, s.main, s.workers, Worker(Reading, k, s.open[s.main.fd]));
    case _ =>
  }

  lemma ClaimKeepsSlots(pool: seq<Slot>, main: MainPc, workers: seq<Worker>)
    requires SlotsOk(pool, main, workers) && main.Claiming?
    ensures SlotsOk(pool[main.k := pool[main.k].(free := false)], Storing(main.fd, main.k), workers)
  {
    var pool' := pool[main.k := pool[main.k].(free := false)];
    assert forall j :: 0 <= j < |pool| && j != main.k ==> pool'[j] == pool[j];
  }

  lemma StoreKeepsSlots(pool: seq<Slot>, main: MainPc, workers: seq<Worker>)
    requires SlotsOk(pool, main, workers) && main.Storing?
    ensures SlotsOk(pool[main.k := pool[main.k].(fd := main.fd)], Spawning(main.fd, main.k), workers)
  {
    var pool' := pool[main.k := pool[main.k].(fd := main.fd)];
    assert forall j :: 0 <= j < |pool| && j != main.k ==> pool'[j] == pool[j];
  }

  lemma SpawnKeepsSlots(pool: seq<Slot>, main: MainPc, workers: seq<Worker>, worker: Worker)
    requires SlotsOk(pool, main, workers) && main.Spawning? && worker.slot == main.k && Live(worker)
    ensures SlotsOk(pool[main.k := pool[main.k].(thread := |workers|)], Detaching(main.k), workers + [worker])
  {
    var pool', workers' := pool[main.k := pool[main.k].(thread := |workers|)], workers + [worker];
    assert forall j :: 0 <= j < |pool| && j != main.k ==> pool'[j] == pool[j];
    assert forall w :: 0 <= w < |workers| ==> workers'[w] == workers[w];
  }

  /** Main leaves the descriptors of running workers alone. */
  lemma MainSparesWorker(s: State, fd: int, w: nat)
    requires SlotsOk(s.pool, s.main, s.workers) && DescriptorsOk(s)
    requires Enabled(s, MainStep(fd)) && Legal(s, MainStep(fd))
    requires w < |s.workers| && HoldsFd(s.workers[w])
    ensures
      var slot, t := s.workers[w].slot, StepMain(s, fd);
      && slot < |t.pool| && t.pool[slot].fd == s.pool[slot].fd
      && s.pool[slot].fd in t.open && t.open[s.pool[slot].fd] == s.workers[w].conn
  {
  }

  lemma MainKeepsDescriptors(s: State, fd: int)
    requires SlotsOk(s.pool, s.main, s.workers) && DescriptorsOk(s)
    requires Enabled(s, MainStep(fd)) && Legal(s, MainStep(fd))
    ensures DescriptorsOk(StepMain(s, fd))
  {
    var t := StepMain(s, fd);
    forall w | 0 <= w < |s.workers| && HoldsFd(s.workers[w])
      ensures t.pool[s.workers[w].slot].fd in t.open
      ensures t.open[t.pool[s.workers[w].slot].fd] == s.workers[w].conn
    {
      MainSparesWorker(s, fd, w);
    }
    hide SlotsOk;
    if s.main.Spawning? {
      assert t.workers == s.workers + [Worker(Reading, s.main.k, s.accepted - 1)] && t.open == s.open;
    } else {
      assert t.workers == s.workers;
    }
  }

  lemma MainKeepsOwned(s: State, fd: int)
    requires SlotsOk(s.pool, s.main, s.workers) && DescriptorsOk(s) && OwnedOk(s)
    requires Enabled(s, MainStep(fd)) && Legal(s, MainStep(fd))
    ensures OwnedOk(StepMain(s, fd))
  {
    var t := StepMain(s, fd);
    forall d | d in t.open && !(MainHolds(t.main) && t.main.fd == d) ensures exists v: nat :: Owner(t, v, d) {
      if MainHolds(s.main) && s.main.fd == d {
        assert Owner(t, |s.workers|, d);
      } else {
        var v: nat :| Owner(s, v, d);
        OwnerSurvivesMain(s, fd, v, d);
      }
    }
  }

  lemma MainKeepsCounts(s: State, fd: int)
    requires SlotsOk(s.pool, s.main, s.workers) && CountsOk(s)
    requires Enabled(s, MainStep(fd)) && Legal(s, MainStep(fd))
    ensures CountsOk(StepMain(s, fd))
  {
    hide Sum;
    var t := StepMain(s, fd);
    match s.main
    case Accepting => AddOne(s.open, fd, s.accepted);
    case Dropping(newfd) => RemoveOne(s.open, newfd);
    case Claiming(_, k) => SumUpdate(s.pool, BusyWeight, k, t.pool[k]);
    case Storing(_, k) => SumUpdate(s.pool, BusyWeight, k, t.pool[k]);
    case Spawning(_, k) =>
      SumUpdate(s.pool, BusyWeight, k, t.pool[k]);
      SumAppend(s.workers, ClosedWeight, t.workers[|s.workers|]);
      SumAppend(s.workers, RepliedWeight, t.workers[|s.workers|]);
      SumAppend(s.workers, LiveWeight, t.workers[|s.workers|]);
    case _ =>
  }

  lemma MainKeepsReplies(s: State, fd: int)
    requires DescriptorsOk(s) && RepliesOk(s.workers, s.main, s.accepted, s.replies)
    requires Enabled(s, MainStep(fd)) && Legal(s, MainStep(fd))
    ensures var t := StepMain(s, fd); RepliesOk(t.workers, t.main, t.accepted, t.replies)
  {
  }

  lemma MainKeepsScan(s: State, fd: int)
    requires SlotsOk(s.pool, s.main, s.workers)
    requires DetachedOk(s.workers, s.main, s.detached) && ScanOk(s.pool, s.main, s.atAccept)
    requires Enabled(s, MainStep(fd)) && Legal(s, MainStep(fd))
    ensures var t := StepMain(s, fd); DetachedOk(t.workers, t.main, t.detached) && ScanOk(t.pool, t.main, t.atAccept)
  {
  }

  /** Every step of main and of any worker is legal and keeps the invariant. */
  lemma StepKeepsInv(s: State, a: Action)
    requires Inv(s) && Enabled(s, a)
    ensures Legal(s, a) && Inv(Step(s, a)) && |Step(s, a).pool| == |s.pool|
  {
    InvGivesLegal(s, a);
    hide SlotsOk, DescriptorsOk, OwnedOk, CountsOk, RepliesOk, DetachedOk, ScanOk;
    match a
    case MainStep(fd) =>
      MainKeepsSlots(s, fd);
      MainKeepsDescriptors(s, fd);
      MainKeepsOwned(s, fd);
      MainKeepsCounts(s, fd);
      MainKeepsReplies(s, fd);
      MainKeepsScan(s, fd);
    case WorkerStep(w) =>
      WorkerKeepsSlots(s, w);
      WorkerKeepsDescriptors(s, w);
      WorkerKeepsOwned(s, w);
      WorkerKeepsCounts(s, w);
      WorkerKeepsReplies(s, w);
      WorkerKeepsScan(s, w);
  }
}
