/**
 For which configurations, and for which values of the opened semaphores, each guarantee of the
 ring holds in every run. `sem_open` without O_EXCL keeps the value of an existing semaphore, so
 every boundary is over all openings; a fresh opening is one of them.
 */
module RingBoundary {
  import opened Sums
  import opened RingModel
  import opened RingInvariant
  import opened RingFifo

  // ---------- Openings that let nobody claim ----------

  /** No producer has an index, and none will get one. */
  predicate Stalled(s: State) {
    && s.claims == []
    && (forall p :: 0 <= p < |s.producers| ==>
          s.producers[p].i == 0 && s.producers[p].pc in {GetBuffer, GetMutex, Finished})
  }

  /** The mutex or the tokens are missing from the start. */
  predicate Locked(cfg: Config) {
    cfg.opening.mutex == 0 || Tokens(cfg) == 0
  }

  lemma TryKeepsStalled(cfg: Config, s: State, a: Action)
    requires Inv(cfg, s) && Locked(cfg) && Stalled(s)
    ensures Stalled(Try(cfg, s, a))
  {
    if a.ProducerStep? && a.p < |s.producers| && s.producers[a.p].pc == GetMutex {
      MutexCounts(cfg, s.producers, s.mutex);
      SumAtLeast(s.producers, TokenWeight, a.p);
      assert !Enabled(cfg, s, a);
    }
  }

  lemma {:induction false} ExecKeepsStalled(cfg: Config, s: State, schedule: seq<Action>)
    requires Inv(cfg, s) && Locked(cfg) && Stalled(s)
    ensures Stalled(Exec(cfg, s, schedule))
    decreases |schedule|
  {
    hide Inv, Stalled, Try, Locked;
    if schedule != [] {
      TryKeepsStalled(cfg, s, schedule[0]);
      TryKeepsInv(cfg, s, schedule[0]);
      ExecKeepsStalled(cfg, Try(cfg, s, schedule[0]), schedule[1..]);
    }
  }

  lemma LockedIsStalled(cfg: Config, s: State)
    requires cfg.buffers > 0 && Locked(cfg) && Reachable(cfg, s)
    ensures Inv(cfg, s) && Stalled(s)
  {
    hide Inv;
    ReachableInv(cfg, s);
    InitialInv(cfg);
    var schedule :| s == Exec(cfg, Initial(cfg), schedule);
    ExecKeepsStalled(cfg, Initial(cfg), schedule);
  }

  // ---------- Undisturbed moves ----------

  /** The spooler takes a signal left over from before and hands a buffer back. */
  lemma Recycle(cfg: Config, s: State) returns (t: State)
    requires Reachable(cfg, s) && s.main != Exited && s.spooler == GetString && s.spoolSignal > 0
    requires s.printIndex < |s.slots|
    ensures Reachable(cfg, t)
    ensures t == s.(bufferCount := s.bufferCount + 1, spoolSignal := s.spoolSignal - 1,
                    printIndex := t.printIndex, printed := t.printed, ready := t.ready)
  {
    hide Reachable, Filled;
    var s1 := Next(cfg, s, SpoolerStep);
    var s2 := Next(cfg, s1, SpoolerStep);
    var s3 := Next(cfg, s2, SpoolerStep);
    var s4 := Next(cfg, s3, SpoolerStep);
    t := Next(cfg, s4, SpoolerStep);
  }

  /** Nobody has claimed, and n buffers are free. */
  ghost predicate Stocked(cfg: Config, s: State, n: nat) {
    && Reachable(cfg, s) && s.bufferCount >= n && s.mutex == cfg.opening.mutex
    && s.producers == Initial(cfg).producers && s.slots == Initial(cfg).slots
    && s.main == Joining(0) && s.spooler == GetString && s.produceIndex == 0 && s.claims == [] && s.posts == []
  }

  /** Leftover signals become free buffers. */
  lemma {:induction false} Restock(cfg: Config, s: State, n: nat) returns (t: State)
    requires cfg.buffers > 0 && Stocked(cfg, s, 0) && s.bufferCount + s.spoolSignal >= n
    ensures Stocked(cfg, t, n)
    ensures s.bufferCount >= n ==> t == s
    decreases s.spoolSignal
  {
    if s.bufferCount >= n {
      t := s;
    } else {
      ReachableInv(cfg, s);
      ModInRange(|s.printed|, cfg.buffers);
      hide Reachable, Inv;
      t := Recycle(cfg, s);
      t := Restock(cfg, t, n);
    }
  }

  /** With n tokens in all, n buffers can be free before the first claim. */
  lemma StockedReachable(cfg: Config, n: nat) returns (s: State)
    requires cfg.buffers > 0 && n <= Tokens(cfg)
    ensures Stocked(cfg, s, n)
    ensures n <= cfg.opening.bufferCount ==> s == Initial(cfg)
  {
    InitialReachable(cfg);
    hide Reachable;
    s := Restock(cfg, Initial(cfg), n);
  }

  /** A producer takes an index undisturbed and stops just before its sprintf. */
  lemma TakeIndex(cfg: Config, s: State, p: nat) returns (t: State)
    requires Reachable(cfg, s) && s.main != Exited
    requires p < |s.producers| && s.producers[p].pc == GetBuffer && s.bufferCount > 0 && s.mutex > 0
    ensures Reachable(cfg, t)
    ensures t == s.(bufferCount := s.bufferCount - 1,
                    produceIndex := if s.produceIndex + 1 == cfg.buffers then 0 else s.produceIndex + 1,
                    producers := s.producers[p := s.producers[p].(pc := Fill, j := s.produceIndex,
                                                                  claim := |s.claims|)],
                    claims := s.claims + [Item(p, s.producers[p].count + 1)])
  {
    hide Reachable;
    var a := ProducerStep(p);
    var s1 := Next(cfg, s, a);
    var s2 := Next(cfg, s1, a);
    var s3 := Next(cfg, s2, a);
    var s4 := Next(cfg, s3, a);
    var s5 := Next(cfg, s4, a);
    t := Next(cfg, s5, a);
    assert t.producers == s.producers[p := s.producers[p].(pc := Fill, j := s.produceIndex, claim := |s.claims|)];
  }

  /** A producer that has its index writes its slot and signals. */
  lemma FillAndSignal(cfg: Config, s: State, p: nat) returns (t: State)
    requires Reachable(cfg, s) && s.main != Exited
    requires p < |s.producers| && s.producers[p].pc == Fill && s.producers[p].j < |s.slots|
    ensures Reachable(cfg, t)
    ensures
      var me := s.producers[p];
      t == s.(slots := s.slots[me.j := Text(Item(p, me.count + 1))], spoolSignal := s.spoolSignal + 1,
              posts := s.posts + [me.claim],
              producers := s.producers[p := me.(pc := if me.i + 1 < cfg.strings then GetBuffer else Finished,
                                                i := me.i + 1, count := me.count + 1)])
  {
    hide Reachable;
    var s1 := Next(cfg, s, ProducerStep(p));
    t := Next(cfg, s1, ProducerStep(p));
    assert t.producers == s.producers[p := t.producers[p]];
  }

  /** The spooler takes a signal and prints whatever is in the next slot. */
  lemma TakeAndPrint(cfg: Config, s: State) returns (t: State)
    requires Reachable(cfg, s) && s.main != Exited
    requires s.spooler == GetString && s.spoolSignal > 0 && s.printIndex < |s.slots|
    ensures Reachable(cfg, t)
    ensures t.claims == s.claims && t.posts == s.posts && t.printed == s.printed + [s.slots[s.printIndex]]
  {
    hide Reachable, Filled;
    var s1 := Next(cfg, s, SpoolerStep);
    t := Next(cfg, s1, SpoolerStep);
  }

  // ---------- Prints before claims ----------

  /** A signal left over from an earlier run makes the spooler print a blank slot at once. */
  lemma LeftoverSignalPrintsBlank(cfg: Config) returns (s: State)
    requires cfg.buffers > 0 && cfg.opening.spoolSignal > 0
    ensures Reachable(cfg, s) && s.printed == [Blank] && s.claims == [] && s.posts == []
  {
    hide Reachable;
    InitialReachable(cfg);
    s := TakeAndPrint(cfg, Initial(cfg));
  }

  /** No run prints more strings than were claimed exactly if no signal was left over. */
  lemma EarlyPrintBoundary(cfg: Config)
    requires cfg.buffers > 0
    ensures (forall s :: Reachable(cfg, s) ==> |s.printed| <= |s.claims|) <==> cfg.opening.spoolSignal == 0
  {
    if cfg.opening.spoolSignal == 0 {
      forall s | Reachable(cfg, s) ensures |s.printed| <= |s.claims| {
        ReachableInv(cfg, s);
        QueueBounds(cfg, s);
      }
    } else {
      hide Reachable;
      var s := LeftoverSignalPrintsBlank(cfg);
      assert |s.printed| > |s.claims|;
    }
  }

  // ---------- Two producers in the index section ----------

  lemma EnterSection(cfg: Config, s: State, p: nat) returns (t: State)
    requires Reachable(cfg, s) && s.main != Exited
    requires p < |s.producers| && s.producers[p].pc == GetBuffer && s.bufferCount > 0 && s.mutex > 0
    ensures Reachable(cfg, t)
    ensures t == s.(bufferCount := s.bufferCount - 1, mutex := s.mutex - 1,
                    producers := s.producers[p := s.producers[p].(pc := ReadIndex)])
  {
    hide Reachable;
    var s1 := Next(cfg, s, ProducerStep(p));
    t := Next(cfg, s1, ProducerStep(p));
    assert t.producers == s.producers[p := t.producers[p]];
  }

  /** With a mutex of two, two producers read the same index: both claims get slot 0. */
  lemma MeetInSection(cfg: Config) returns (s: State, t: State)
    requires cfg.buffers > 0 && !Guarded(cfg)
    ensures Reachable(cfg, s) && !Exclusive(s.producers)
    ensures Reachable(cfg, t) && t.main == Joining(0) && t.spooler == GetString
    ensures |t.producers| == cfg.producers && |t.slots| == cfg.buffers
    ensures t.producers[0] == Producer(BumpIndex, 0, 0, 0, 0) && t.producers[1] == Producer(BumpIndex, 0, 0, 0, 1)
    ensures t.claims == [Item(0, 1), Item(1, 1)] && t.posts == []
    ensures cfg.opening.spoolSignal == 0 ==> t.printed == [] && t.printIndex == 0
  {
    var s0 := StockedReachable(cfg, 2);
    hide Reachable;
    var s1 := EnterSection(cfg, s0, 0);
    s := EnterSection(cfg, s1, 1);
    assert InSection(s.producers[0]) && InSection(s.producers[1]);
    var s3 := Next(cfg, s, ProducerStep(0));
    t := Next(cfg, s3, ProducerStep(1));
  }

  /** Mutual exclusion holds in every run exactly in the guarded configurations. */
  lemma MutexBoundary(cfg: Config)
    requires cfg.buffers > 0
    ensures (forall s :: Reachable(cfg, s) ==> Exclusive(s.producers)) <==> Guarded(cfg)
  {
    if Guarded(cfg) {
      forall s | Reachable(cfg, s) ensures Exclusive(s.producers) {
        ReachableInv(cfg, s);
        MutualExclusion(cfg, s);
      }
    } else {
      hide Reachable, Exclusive;
      var s, t := MeetInSection(cfg);
    }
  }

  /** Leaving the section, writing: four statements. */
  lemma LeaveAndFill(cfg: Config, s: State, p: nat) returns (t: State)
    requires Reachable(cfg, s) && s.main != Exited
    requires p < |s.producers| && s.producers[p].pc == BumpIndex && s.producers[p].j < |s.slots|
    ensures Reachable(cfg, t)
    ensures
      var me := s.producers[p];
      t == s.(slots := s.slots[me.j := Text(Item(p, me.count + 1))], mutex := s.mutex + 1,
              produceIndex := t.produceIndex,
              producers := s.producers[p := me.(pc := Signal, count := me.count + 1)])
  {
    hide Reachable;
    var s1 := Next(cfg, s, ProducerStep(p));
    var s2 := Next(cfg, s1, ProducerStep(p));
    var s3 := Next(cfg, s2, ProducerStep(p));
    t := Next(cfg, s3, ProducerStep(p));
    assert t.producers == s.producers[p := t.producers[p]];
  }

  /** Then the second string overwrites the first, although the signals are in order. */
  lemma MeetingOverwrites(cfg: Config) returns (s: State)
    requires cfg.buffers > 0 && !Guarded(cfg) && cfg.opening.spoolSignal == 0
    ensures Reachable(cfg, s) && InOrder(s.posts) && !Fifo(s.claims, s.printed)
  {
    hide Reachable;
    var s0, s1 := MeetInSection(cfg);
    var s2 := LeaveAndFill(cfg, s1, 0);
    var s3 := LeaveAndFill(cfg, s2, 1);
    hide Guarded;
    var s4 := Next(cfg, s3, ProducerStep(0));
    var s5 := Next(cfg, s4, ProducerStep(1));
    assert s5.slots[0] == Text(Item(1, 1)) && s5.posts == [0, 1];
    s := TakeAndPrint(cfg, s5);
    assert s.printed[0] != Text(s.claims[0]);
  }

  // ---------- Signals out of order ----------

  /** One producer, one token, or nothing to print. */
  predicate Narrow(cfg: Config) {
    cfg.producers <= 1 || Tokens(cfg) <= 1 || cfg.strings == 0
  }

  function One(m: Producer): int { 1 }

  /** In a narrow configuration at most one claim is pending, so the next signal is the oldest claim. */
  lemma NarrowSignalsOldest(cfg: Config, s: State, p: nat)
    requires Inv(cfg, s) && Narrow(cfg) && InOrder(s.posts)
    requires p < |s.producers| && s.producers[p].pc == Signal
    ensures s.producers[p].claim == |s.posts|
  {
    assert ProducerShape(cfg, s.producers[p]) && cfg.strings > 0;
    PendingIsPastPosts(s, p);
    hide FifoInv, ClaimsInv, IndexOk, PrintIndexOk, MainOk, MutexOk, InOrder, Guarded, Sum;
    SumMonotone(s.producers, PendingWeight, One);
    SumConstant(s.producers, One, 1);
    SumMonotone(s.producers, PendingWeight, TokenWeight);
  }

  lemma TryKeepsOrder(cfg: Config, s: State, a: Action)
    requires Inv(cfg, s) && Narrow(cfg) && InOrder(s.posts)
    ensures InOrder(Try(cfg, s, a).posts)
  {
    hide Inv, Narrow;
    if a.ProducerStep? && Enabled(cfg, s, a) && s.producers[a.p].pc == Signal {
      NarrowSignalsOldest(cfg, s, a.p);
    }
  }

  lemma {:induction false} NarrowKeepsOrder(cfg: Config, s: State, schedule: seq<Action>)
    requires Inv(cfg, s) && Narrow(cfg) && InOrder(s.posts)
    ensures InOrder(Exec(cfg, s, schedule).posts)
    decreases |schedule|
  {
    hide Inv, InOrder, Narrow, Try;
    if schedule != [] {
      TryKeepsOrder(cfg, s, schedule[0]);
      TryKeepsInv(cfg, s, schedule[0]);
      NarrowKeepsOrder(cfg, Try(cfg, s, schedule[0]), schedule[1..]);
    }
  }

  /** Producer 0 takes an index and sleeps before its sprintf; producer 1 takes the next and signals first. */
  lemma Overtake(cfg: Config) returns (s: State)
    requires cfg.buffers > 0 && !Narrow(cfg) && cfg.opening.mutex >= 1
    ensures Reachable(cfg, s) && s.main == Joining(0) && s.spooler == GetString && s.spoolSignal > 0
    ensures s.claims == [Item(0, 1), Item(1, 1)] && s.posts == [1]
    ensures cfg.opening.spoolSignal == 0 ==> s.printed == [] && s.printIndex == 0
    ensures s.slots == Initial(cfg).slots[if cfg.buffers == 1 then 0 else 1 := Text(Item(1, 1))]
  {
    var s0 := StockedReachable(cfg, 2);
    hide Reachable;
    var s1 := TakeIndex(cfg, s0, 0);
    assert s1.producers[1] == Producer(GetBuffer, 0, 0, 0, 0);
    var s2 := TakeIndex(cfg, s1, 1);
    s := FillAndSignal(cfg, s2, 1);
  }

  /** Every run signals in claim order exactly in the narrow configurations, or if nobody can claim. */
  lemma OrderBoundary(cfg: Config)
    requires cfg.buffers > 0
    ensures (forall s :: Reachable(cfg, s) ==> InOrder(s.posts)) <==> cfg.opening.mutex == 0 || Narrow(cfg)
  {
    if cfg.opening.mutex == 0 {
      forall s | Reachable(cfg, s) ensures InOrder(s.posts) {
        LockedIsStalled(cfg, s);
        Window(cfg, s);
      }
    } else if Narrow(cfg) {
      InitialInv(cfg);
      forall s | Reachable(cfg, s) ensures InOrder(s.posts) {
        var schedule :| s == Exec(cfg, Initial(cfg), schedule);
        NarrowKeepsOrder(cfg, Initial(cfg), schedule);
      }
    } else {
      hide Reachable;
      var s := Overtake(cfg);
      assert s.posts[0] != 0;
    }
  }

  /** The spooler then prints a slot nobody has written, or with a single slot the wrong string. */
  lemma BlankPrintReachable(cfg: Config) returns (s: State)
    requires cfg.buffers > 0 && !Narrow(cfg) && cfg.opening.mutex >= 1 && cfg.opening.spoolSignal == 0
    ensures Reachable(cfg, s) && s.claims == [Item(0, 1), Item(1, 1)] && s.posts == [1]
    ensures s.printed == [if cfg.buffers == 1 then Text(Item(1, 1)) else Blank]
  {
    hide Reachable;
    s := Overtake(cfg);
    s := TakeAndPrint(cfg, s);
  }

  // ---------- Claims a lap ahead of the spooler ----------

  /** All strings claimed so far were written and signalled in order, and none was taken. */
  ghost predicate Calm(cfg: Config, s: State)
    requires cfg.buffers > 0
  {
    && Reachable(cfg, s) && s.main == Joining(0) && s.spooler == GetString && s.printed == []
    && s.mutex == cfg.opening.mutex
    && s.produceIndex == |s.claims| % cfg.buffers && |s.posts| == |s.claims| && InOrder(s.posts)
    && (forall p :: 0 <= p < |s.producers| ==> s.producers[p].pc in {GetBuffer, Finished})
  }

  /** A calm state with claims missing has a free buffer and a producer that wants it. */
  lemma CalmGoesOn(cfg: Config, s: State) returns (p: nat)
    requires cfg.buffers > 0 && cfg.opening.spoolSignal == 0 && Inv(cfg, s) && Calm(cfg, s)
    requires |s.claims| < cfg.opening.bufferCount && |s.claims| < cfg.producers * cfg.strings
    ensures p < |s.producers| && s.producers[p].pc == GetBuffer && s.bufferCount > 0
  {
    hide Reachable, ClaimsInv, FifoInv, IndexOk, MutexOk, MainOk, InOrder, Sum, Guarded;
    SumConstant(s.producers, TokenWeight, 0);
    if forall p :: 0 <= p < |s.producers| ==> s.producers[p].pc == Finished {
      SumConstant(s.producers, PostedWeight, cfg.strings);
      assert false;
    }
    p :| 0 <= p < |s.producers| && s.producers[p].pc != Finished;
  }

  /** The state after producer p, undisturbed, has produced and signalled one string. */
  function AfterOne(cfg: Config, s: State, p: nat): State
    requires p < |s.producers| && s.bufferCount > 0 && s.produceIndex < |s.slots|
  {
    var me := s.producers[p];
    s.(bufferCount := s.bufferCount - 1, spoolSignal := s.spoolSignal + 1,
       produceIndex := if s.produceIndex + 1 == cfg.buffers then 0 else s.produceIndex + 1,
       slots := s.slots[s.produceIndex := Text(Item(p, me.count + 1))],
       producers := s.producers[p := Producer(if me.i + 1 < cfg.strings then GetBuffer else Finished,
                                              me.i + 1, me.count + 1, s.produceIndex, |s.claims|)],
       claims := s.claims + [Item(p, me.count + 1)], posts := s.posts + [|s.claims|])
  }

  lemma ProduceOne(cfg: Config, s: State, p: nat) returns (t: State)
    requires Reachable(cfg, s) && s.main != Exited && p < |s.producers| && s.producers[p].pc == GetBuffer
    requires s.bufferCount > 0 && s.mutex > 0 && s.produceIndex < |s.slots|
    ensures Reachable(cfg, t) && t == AfterOne(cfg, s, p)
  {
    hide Reachable;
    var u := TakeIndex(cfg, s, p);
    t := FillAndSignal(cfg, u, p);
    assert t.producers == s.producers[p := t.producers[p]];
  }

  /** One more string, produced undisturbed. */
  lemma CalmProduce(cfg: Config, s: State) returns (t: State)
    requires cfg.buffers > 0 && cfg.opening.spoolSignal == 0 && cfg.opening.mutex > 0 && Calm(cfg, s)
    requires |s.claims| < cfg.opening.bufferCount && |s.claims| < cfg.producers * cfg.strings
    ensures Calm(cfg, t) && |t.claims| == |s.claims| + 1 && s.claims <= t.claims && t.spoolSignal > 0
    ensures |t.slots| == cfg.buffers && t.slots[|s.claims| % cfg.buffers] == Text(t.claims[|s.claims|])
  {
    ReachableInv(cfg, s);
    var p := CalmGoesOn(cfg, s);
    assert |s.slots| == cfg.buffers;
    ModInRange(|s.claims|, cfg.buffers);
    hide Reachable, Inv;
    t := ProduceOne(cfg, s, p);
    ModSuccessor(|s.claims|, cfg.buffers);
    AppendKeepsOrder(s.posts);
    hide InOrder;
  }

  lemma AppendKeepsOrder(posts: seq<nat>)
    requires InOrder(posts)
    ensures InOrder(posts + [|posts|])
  {
  }

  lemma {:induction false} CalmLap(cfg: Config, s: State, n: nat) returns (t: State)
    requires cfg.buffers > 0 && cfg.opening.spoolSignal == 0 && cfg.opening.mutex > 0 && Calm(cfg, s)
    requires |s.claims| <= n <= cfg.opening.bufferCount && n <= cfg.producers * cfg.strings
    ensures Calm(cfg, t) && |t.claims| == n
    decreases n - |s.claims|
  {
    if |s.claims| == n {
      t := s;
    } else {
      hide Calm;
      t := CalmProduce(cfg, s);
      t := CalmLap(cfg, t, n);
    }
  }

  /** With more tokens than slots a run in order overwrites the first string before it is printed. */
  lemma LapOverwrites(cfg: Config) returns (s: State)
    requires cfg.buffers > 0 && cfg.opening.spoolSignal == 0 && cfg.opening.mutex > 0 && !Spaced(cfg)
    ensures Reachable(cfg, s) && InOrder(s.posts) && !Fifo(s.claims, s.printed)
  {
    InitialReachable(cfg);
    hide Reachable;
    ModUnique(0, cfg.buffers, 0, 0);
    var u := CalmLap(cfg, Initial(cfg), cfg.buffers);
    var v := CalmProduce(cfg, u);
    ModUnique(cfg.buffers, cfg.buffers, 1, 0);
    ClaimsDiffer(cfg, v, 0, cfg.buffers);
    PrintStart(cfg, v);
    s := TakeAndPrint(cfg, v);
    assert s.printed[0] == Text(v.claims[cfg.buffers]);
  }

  lemma ClaimsDiffer(cfg: Config, s: State, c: nat, d: nat)
    requires cfg.buffers > 0 && Reachable(cfg, s) && c < d < |s.claims|
    ensures s.claims[c] != s.claims[d]
  {
    ReachableInv(cfg, s);
    hide Reachable, CountsInv, FifoInv, IndexOk;
  }

  lemma PrintStart(cfg: Config, s: State)
    requires cfg.buffers > 0 && Reachable(cfg, s) && s.printed == []
    requires s.spooler == GetString
    ensures s.printIndex == 0
  {
    PrintIndexCountsReleases(cfg, s);
    ModUnique(0, cfg.buffers, 0, 0);
  }

  // ---------- FIFO ----------

  /** A run that signals in order prints in order: for exactly these openings that is so for every run. */
  lemma InOrderBoundary(cfg: Config)
    requires cfg.buffers > 0
    ensures (forall s :: Reachable(cfg, s) && InOrder(s.posts) ==> Fifo(s.claims, s.printed)) <==>
            cfg.opening.spoolSignal == 0 && (cfg.opening.mutex == 0 || (Guarded(cfg) && Spaced(cfg)))
  {
    hide Reachable, Guarded, Spaced, InOrder;
    if cfg.opening.spoolSignal > 0 {
      var s := LeftoverSignalPrintsBlank(cfg);
      NoPostsInOrder();
    } else if cfg.opening.mutex == 0 {
      forall s | Reachable(cfg, s) ensures Fifo(s.claims, s.printed) {
        LockedPrintsNothing(cfg, s);
      }
    } else if !Guarded(cfg) {
      var s := MeetingOverwrites(cfg);
    } else if !Spaced(cfg) {
      var s := LapOverwrites(cfg);
    } else {
      forall s | Reachable(cfg, s) && InOrder(s.posts) ensures Fifo(s.claims, s.printed) {
        InOrderIsFifo(cfg, s);
      }
    }
  }

  lemma NoPostsInOrder()
    ensures InOrder([])
  {
  }

  lemma LockedPrintsNothing(cfg: Config, s: State)
    requires cfg.buffers > 0 && cfg.opening.spoolSignal == 0 && Locked(cfg) && Reachable(cfg, s)
    ensures s.printed == []
  {
    LockedIsStalled(cfg, s);
    QueueBounds(cfg, s);
  }

  /**
   Every run is FIFO exactly if no signal was left over and the configuration is narrow without a
   lap to spare, or nobody can claim; from fresh semaphores, exactly with one producer, one buffer
   or nothing to print.
   */
  lemma FifoBoundary(cfg: Config)
    requires cfg.buffers > 0
    ensures (forall s :: Reachable(cfg, s) ==> Fifo(s.claims, s.printed)) <==>
            cfg.opening.spoolSignal == 0 && (cfg.opening.mutex == 0 || (Narrow(cfg) && Spaced(cfg)))
    ensures Fresh(cfg) ==>
              ((forall s :: Reachable(cfg, s) ==> Fifo(s.claims, s.printed)) <==>
               cfg.producers <= 1 || cfg.buffers == 1 || cfg.strings == 0)
  {
    InOrderBoundary(cfg);
    OrderBoundary(cfg);
    hide Reachable;
    if cfg.opening.spoolSignal == 0 && cfg.opening.mutex > 0 && !Narrow(cfg) {
      var s := BlankPrintReachable(cfg);
      assert s.printed[0] != Text(s.claims[0]);
    }
  }
}
