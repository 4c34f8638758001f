/** The ring never deadlocks, every fair run ends, and what the shutdown guarantees. */
module RingProgress {
  import opened Sums
  import opened RingModel
  import opened RingInvariant
  import opened RingFifo
  import opened RingBoundary
  import opened RingBounds

  // ---------- The exact length of a run ----------

  /** Steps still ahead of a producer, with five spooler steps for each string it will post. */
  function ProducerWork(cfg: Config, m: Producer): int {
    13 * (cfg.strings - m.i) -
    match m.pc
    case GetBuffer => 0
    case GetMutex => 1
    case ReadIndex => 2
    case BumpIndex => 3
    case WrapIndex => 4
    case PutMutex => 5
    case Fill => 6
    case Signal => 7
    case Finished => 0
  }

  function WorkOf(cfg: Config): Producer -> int {
    m => ProducerWork(cfg, m)
  }

  function SpoolerWork(s: State): nat {
    5 * s.spoolSignal +
    match s.spooler
    case GetString => 0
    case Print => 4
    case BumpPrint => 3
    case WrapPrint => 2
    case PutBuffer => 1
  }

  function MainWork(s: State): int {
    match s.main
    case Joining(next) => |s.producers| - next + 2
    case Cancelling => 1
    case Exited => 0
  }

  function Remaining(cfg: Config, s: State): int {
    Sum(s.producers, WorkOf(cfg)) + SpoolerWork(s) + MainWork(s)
  }

  /** Every executed statement brings the end exactly one step closer. */
  lemma StepTakesOne(cfg: Config, s: State, a: Action)
    requires Shape(cfg, s) && MainOk(s.producers, s.main, s.spoolSignal)
    requires Enabled(cfg, s, a) && InBounds(s, a)
    ensures Remaining(cfg, Step(cfg, s, a)) == Remaining(cfg, s) - 1
  {
    hide Sum;
    if a.ProducerStep? {
      var t := StepProducer(cfg, s, a.p);
      SumUpdate(s.producers, WorkOf(cfg), a.p, t.producers[a.p]);
      assert t.producers == s.producers[a.p := t.producers[a.p]];
    }
  }

  lemma RemainingNonNegative(cfg: Config, s: State)
    requires Inv(cfg, s)
    ensures Remaining(cfg, s) >= MainWork(s) >= 0
    ensures MainWork(s) == 0 ==> s.main == Exited
  {
    hide ClaimsInv, FifoInv, IndexOk, TokensOk, MutexOk, PrintIndexOk, Guarded;
    assert forall p :: 0 <= p < |s.producers| ==> ProducerShape(cfg, s.producers[p]);
    SumNonNegative(s.producers, WorkOf(cfg));
  }

  /** The scheduling decisions of `schedule` that execute a statement. */
  function Executed(cfg: Config, s: State, schedule: seq<Action>): nat
    decreases |schedule|
  {
    if schedule == [] then 0
    else
      (if Enabled(cfg, s, schedule[0]) && InBounds(s, schedule[0]) then 1 else 0) +
      Executed(cfg, Try(cfg, s, schedule[0]), schedule[1..])
  }

  lemma TryTakesOne(cfg: Config, s: State, a: Action)
    requires Inv(cfg, s)
    ensures Remaining(cfg, Try(cfg, s, a)) ==
            Remaining(cfg, s) - if Enabled(cfg, s, a) && InBounds(s, a) then 1 else 0
  {
    hide Remaining, Enabled, InBounds, Step, ClaimsInv, FifoInv, IndexOk, TokensOk, MutexOk, PrintIndexOk;
    if Enabled(cfg, s, a) && InBounds(s, a) {
      StepTakesOne(cfg, s, a);
    }
  }

  /** Executed and remaining statements add up to the same number along every schedule. */
  lemma {:induction false} ExecAccounts(cfg: Config, s: State, schedule: seq<Action>)
    requires Inv(cfg, s)
    ensures Executed(cfg, s, schedule) + Remaining(cfg, Exec(cfg, s, schedule)) == Remaining(cfg, s)
    decreases |schedule|
  {
    hide Inv, Remaining, Try, Enabled, InBounds;
    if schedule != [] {
      TryTakesOne(cfg, s, schedule[0]);
      TryKeepsInv(cfg, s, schedule[0]);
      ExecAccounts(cfg, Try(cfg, s, schedule[0]), schedule[1..]);
    }
  }

  /** Statements from the start to the exit. */
  function TotalWork(cfg: Config): nat {
    13 * cfg.producers * cfg.strings + 5 * cfg.opening.spoolSignal + cfg.producers + 2
  }

  lemma InitialWork(cfg: Config)
    ensures Remaining(cfg, Initial(cfg)) == TotalWork(cfg)
  {
    SumConstant(Initial(cfg).producers, WorkOf(cfg), 13 * cfg.strings);
    assert cfg.producers * (13 * cfg.strings) == 13 * cfg.producers * cfg.strings;
  }

  /**
   No run is longer than 13 statements per string, five per leftover signal, one join per producer,
   one poll, one cancel.
   */
  lemma RunLength(cfg: Config, schedule: seq<Action>)
    requires cfg.buffers > 0
    ensures Executed(cfg, Initial(cfg), schedule) <= TotalWork(cfg)
    ensures Executed(cfg, Initial(cfg), schedule) == TotalWork(cfg) ==>
              Exec(cfg, Initial(cfg), schedule).main == Exited
  {
    hide Inv, Remaining;
    InitialInv(cfg);
    InitialWork(cfg);
    ExecAccounts(cfg, Initial(cfg), schedule);
    ExecKeepsInv(cfg, Initial(cfg), schedule);
    RemainingNonNegative(cfg, Exec(cfg, Initial(cfg), schedule));
  }

  // ---------- Deadlock freedom ----------

  /** There is nothing to produce, or both a mutex and a token to produce it with. */
  predicate Startable(cfg: Config) {
    cfg.producers * cfg.strings == 0 || !Locked(cfg)
  }

  /** All producers done, no string waiting, every buffer free, the spooler idle. */
  predicate Drained(cfg: Config, s: State) {
    && (forall p :: 0 <= p < |s.producers| ==> s.producers[p].pc == Finished)
    && s.spoolSignal == 0 && s.bufferCount == Tokens(cfg) && s.spooler == GetString
  }

  /** As long as the work is not done, some producer or the spooler can move. */
  lemma WorkersProgress(cfg: Config, s: State) returns (a: Action)
    requires Inv(cfg, s) && Startable(cfg) && s.main != Exited && !Drained(cfg, s)
    ensures !a.MainStep? && Enabled(cfg, s, a)
  {
    if Enabled(cfg, s, SpoolerStep) {
      return SpoolerStep;
    }
    if p :| 0 <= p < |s.producers| && Enabled(cfg, s, ProducerStep(p)) {
      return ProducerStep(p);
    }
    NoneInSection(cfg, s);
    NoTokenHeld(cfg, s);
    assert false;
  }

  lemma NoneInSection(cfg: Config, s: State)
    requires Inv(cfg, s) && s.main != Exited
    requires forall p :: 0 <= p < |s.producers| ==> !Enabled(cfg, s, ProducerStep(p))
    ensures s.mutex == cfg.opening.mutex
  {
    forall p | 0 <= p < |s.producers| ensures !InSection(s.producers[p]) {
      assert !Enabled(cfg, s, ProducerStep(p));
    }
    MutexCounts(cfg, s.producers, s.mutex);
  }

  lemma NoTokenHeld(cfg: Config, s: State)
    requires Inv(cfg, s) && Startable(cfg) && s.main != Exited && s.mutex == cfg.opening.mutex
    requires !Enabled(cfg, s, SpoolerStep)
    requires forall p :: 0 <= p < |s.producers| ==> !Enabled(cfg, s, ProducerStep(p))
    ensures Drained(cfg, s)
  {
    hide ClaimsInv, FifoInv, IndexOk, MutexOk, PrintIndexOk, MainOk, Sum, Guarded;
    forall p | 0 <= p < |s.producers| ensures ProducerShape(cfg, s.producers[p]) && cfg.producers > 0 {
    }
    if cfg.producers * cfg.strings == 0 {
      NothingToProduce(cfg, s);
    } else {
      forall p | 0 <= p < |s.producers|
        ensures TokenWeight(s.producers[p]) == 0 && s.producers[p].pc in {GetBuffer, Finished}
      {
        assert !Enabled(cfg, s, ProducerStep(p));
      }
    }
    SumConstant(s.producers, TokenWeight, 0);
    forall p | 0 <= p < |s.producers| ensures s.producers[p].pc == Finished {
      assert !Enabled(cfg, s, ProducerStep(p));
    }
  }

  lemma NothingToProduce(cfg: Config, s: State)
    requires Shape(cfg, s) && cfg.producers * cfg.strings == 0
    ensures forall p :: 0 <= p < |s.producers| ==> s.producers[p].pc == Finished
  {
    if cfg.producers > 0 {
      assert cfg.producers * cfg.strings == cfg.strings + (cfg.producers - 1) * cfg.strings;
      assert (cfg.producers - 1) * cfg.strings >= 0;
    }
  }

  /** Producers and spooler are all blocked or done exactly when the work is finished and printed. */
  lemma StuckMeansDrained(cfg: Config, s: State)
    requires cfg.buffers > 0 && Startable(cfg) && Reachable(cfg, s) && s.main != Exited
    ensures (forall a: Action :: !a.MainStep? ==> !Enabled(cfg, s, a)) <==> Drained(cfg, s)
    ensures Drained(cfg, s) ==>
              && |s.posts| == |s.claims| == cfg.producers * cfg.strings
              && |s.printed| == |s.posts| + cfg.opening.spoolSignal
  {
    hide Reachable, Inv, Startable;
    ReachableInv(cfg, s);
    if Drained(cfg, s) {
      DrainedIsComplete(cfg, s);
    } else {
      hide Enabled;
      var a := WorkersProgress(cfg, s);
    }
  }

  lemma DrainedIsComplete(cfg: Config, s: State)
    requires Inv(cfg, s) && Drained(cfg, s)
    ensures |s.posts| == |s.claims| == cfg.producers * cfg.strings
    ensures |s.printed| == |s.posts| + cfg.opening.spoolSignal
  {
    hide ClaimsInv, FifoInv, MutexOk, IndexOk, PrintIndexOk;
    SumConstant(s.producers, PostedWeight, cfg.strings);
    SumConstant(s.producers, PendingWeight, 0);
  }

  /** Nothing that can be reached is stuck before the process exits. */
  lemma NoDeadlock(cfg: Config, s: State) returns (a: Action)
    requires Inv(cfg, s) && Startable(cfg) && s.main != Exited
    ensures Enabled(cfg, s, a)
    ensures a.ProducerStep? ==> a.p < cfg.producers
  {
    hide ClaimsInv, FifoInv, MutexOk, IndexOk, PrintIndexOk, TokensOk;
    if Drained(cfg, s) {
      a := MainStep;
    } else {
      a := WorkersProgress(cfg, s);
    }
  }

  // ---------- Fair termination ----------

  /** A round gives every thread at least one turn, in any order and any number of times. */
  predicate Covers(cfg: Config, round: seq<Action>) {
    && MainStep in round && SpoolerStep in round
    && (forall p :: 0 <= p < cfg.producers ==> ProducerStep(p) in round)
  }

  lemma {:induction false} TurnIsTaken(cfg: Config, s: State, round: seq<Action>, a: Action)
    requires a in round && Enabled(cfg, s, a) && InBounds(s, a)
    ensures Executed(cfg, s, round) >= 1
    decreases |round|
  {
    if !(Enabled(cfg, s, round[0]) && InBounds(s, round[0])) {
      assert round == [round[0]] + round[1..];
      hide Enabled, InBounds;
      TurnIsTaken(cfg, s, round[1..], a);
    }
  }

  function Flatten(rounds: seq<seq<Action>>): seq<Action> {
    if rounds == [] then [] else rounds[0] + Flatten(rounds[1..])
  }

  lemma {:induction false} ExitIsFinal(cfg: Config, s: State, schedule: seq<Action>)
    requires s.main == Exited
    ensures Exec(cfg, s, schedule) == s
    decreases |schedule|
  {
    if schedule != [] {
      ExitIsFinal(cfg, s, schedule[1..]);
    }
  }

  lemma RoundProgresses(cfg: Config, s: State, round: seq<Action>)
    requires cfg.buffers > 0 && Contained(cfg) && Startable(cfg)
    requires Reachable(cfg, s) && s.main != Exited && Covers(cfg, round)
    ensures Remaining(cfg, Exec(cfg, s, round)) < Remaining(cfg, s)
  {
    hide Inv, Remaining, Enabled, InBounds, Contained, Startable, Reachable;
    ReachableInv(cfg, s);
    var a := NoDeadlock(cfg, s);
    StaysInBounds(cfg, s, a);
    assert a.ProducerStep? ==> a == ProducerStep(a.p);
    TurnIsTaken(cfg, s, round, a);
    ExecAccounts(cfg, s, round);
  }

  lemma {:induction false} FairRounds(cfg: Config, s: State, rounds: seq<seq<Action>>)
    requires cfg.buffers > 0 && Contained(cfg) && Startable(cfg)
    requires Reachable(cfg, s) && |rounds| >= Remaining(cfg, s)
    requires forall k :: 0 <= k < |rounds| ==> Covers(cfg, rounds[k])
    ensures Exec(cfg, s, Flatten(rounds)).main == Exited
    decreases |rounds|
  {
    hide Inv, Remaining, Covers, Contained, Startable, Reachable;
    ReachableInv(cfg, s);
    RemainingNonNegative(cfg, s);
    if s.main == Exited {
      ExitIsFinal(cfg, s, Flatten(rounds));
    } else {
      RoundProgresses(cfg, s, rounds[0]);
      ExecConcat(cfg, s, rounds[0], Flatten(rounds[1..]));
      ReachableExec(cfg, s, rounds[0]);
      FairRounds(cfg, Exec(cfg, s, rounds[0]), rounds[1..]);
    }
  }

  /** Any scheduler that keeps giving every thread a turn brings the program to its exit. */
  lemma FairTermination(cfg: Config, rounds: seq<seq<Action>>)
    requires cfg.buffers > 0 && Contained(cfg) && Startable(cfg)
    requires |rounds| >= TotalWork(cfg)
    requires forall k :: 0 <= k < |rounds| ==> Covers(cfg, rounds[k])
    ensures Exec(cfg, Initial(cfg), Flatten(rounds)).main == Exited
  {
    hide Remaining, Contained, Startable, Reachable;
    InitialReachable(cfg);
    InitialWork(cfg);
    FairRounds(cfg, Initial(cfg), rounds);
  }

  // ---------- Shutdown ----------

  /** Strings that are ever taken from the signal semaphore: the produced ones and the leftover signals. */
  function Expected(cfg: Config): nat {
    cfg.producers * cfg.strings + cfg.opening.spoolSignal
  }

  /**
   Once main has joined every producer and read the signal semaphore as zero, every string has
   been signalled and taken; at most one take is incomplete, and all strings are printed except one
   the spooler may still be about to print.
   */
  lemma Shutdown(cfg: Config, s: State)
    requires cfg.buffers > 0 && Reachable(cfg, s) && !s.main.Joining?
    ensures |s.posts| == |s.claims| == cfg.producers * cfg.strings && s.spoolSignal == 0
    ensures |s.printed| == Expected(cfg) - if s.spooler == Print then 1 else 0
    ensures Released(s) == Expected(cfg) - if s.spooler == GetString then 0 else 1
  {
    ReachableInv(cfg, s);
    hide Reachable, ClaimsInv, FifoInv, MutexOk, IndexOk, PrintIndexOk;
    SumConstant(s.producers, PostedWeight, cfg.strings);
    SumConstant(s.producers, PendingWeight, 0);
  }

  /** If the spooler is past its printf and the run was FIFO, the output is complete. */
  lemma CompleteOutput(cfg: Config, s: State, p: nat)
    requires cfg.buffers > 0 && Reachable(cfg, s) && !s.main.Joining? && s.spooler != Print
    requires Fifo(s.claims, s.printed) && p < cfg.producers
    ensures PrintedNumbers(s.printed, p) == UpTo(cfg.strings)
  {
    Shutdown(cfg, s);
    ReachableInv(cfg, s);
    hide TokensOk, MutexOk, IndexOk, PrintIndexOk, ClaimsOk, NumbersOk, SlotsOk, FifoInv, Sum;
    PrintedIsProjection(s.claims, s.printed, p);
    assert s.claims[..|s.printed|] == s.claims;
    assert Claimed(s.producers[p]) == cfg.strings;
  }

  // ---------- Runs driven to their exit ----------

  /** At most one producer in the section and the indices right: true of every guarded state. */
  ghost predicate Orderly(cfg: Config, s: State) {
    && Reachable(cfg, s) && Inv(cfg, s)
    && IndexOk(cfg, s.producers, |s.claims|, s.produceIndex) && Exclusive(s.producers)
  }

  lemma InitialOrderly(cfg: Config)
    requires cfg.buffers > 0
    ensures Orderly(cfg, Initial(cfg))
  {
    InitialReachable(cfg);
    InitialInv(cfg);
    hide Reachable, Inv;
    ModUnique(0, cfg.buffers, 0, 0);
  }

  /** The step does not enter an occupied section. */
  predicate Polite(s: State, a: Action) {
    a.ProducerStep? && a.p < |s.producers| && s.producers[a.p].pc == GetMutex ==>
      forall q :: 0 <= q < |s.producers| ==> !InSection(s.producers[q])
  }

  lemma OrderlyInBounds(cfg: Config, s: State, a: Action)
    requires Orderly(cfg, s) && Enabled(cfg, s, a)
    ensures InBounds(s, a)
  {
    InvGivesBounds(cfg, s, a);
    hide Reachable, ClaimsInv, FifoInv, TokensOk, MutexOk, MainOk, PrintIndexOk, Guarded, Exclusive;
    match a
    case ProducerStep(p) =>
      assert PlaceOk(cfg, s.producers[p], |s.claims|, s.produceIndex);
      ModInRange(s.producers[p].claim, cfg.buffers);
    case _ =>
  }

  lemma PoliteKeepsExclusive(cfg: Config, s: State, p: nat)
    requires Exclusive(s.producers) && Polite(s, ProducerStep(p))
    requires Enabled(cfg, s, ProducerStep(p)) && InBounds(s, ProducerStep(p))
    ensures Exclusive(StepProducer(cfg, s, p).producers)
  {
    var t := StepProducer(cfg, s, p);
    assert t.producers == s.producers[p := t.producers[p]];
    assert InSection(t.producers[p]) ==> InSection(s.producers[p]) || s.producers[p].pc == GetMutex;
    hide StepProducer, InSection;
  }

  lemma PoliteStep(cfg: Config, s: State, a: Action) returns (t: State)
    requires Orderly(cfg, s) && Enabled(cfg, s, a) && Polite(s, a)
    ensures InBounds(s, a) && t == Step(cfg, s, a) && Orderly(cfg, t)
  {
    OrderlyInBounds(cfg, s, a);
    t := Next(cfg, s, a);
    assert cfg.buffers > 0;
    hide Reachable, Inv;
    StepKeepsInv(cfg, s, a);
    if a.ProducerStep? {
      PoliteKeepsExclusive(cfg, s, a.p);
      hide IndexOk, Enabled, InBounds, StepProducer;
      if InSection(s.producers[a.p]) {
        SectionKeepsIndex(cfg, s, a.p);
      } else {
        OutsideKeepsIndex(cfg, s, a.p);
      }
    }
  }

  /** Some statement that does not enter an occupied section can be executed. */
  lemma PoliteProgress(cfg: Config, s: State) returns (a: Action)
    requires Orderly(cfg, s) && Startable(cfg) && s.main != Exited
    ensures Enabled(cfg, s, a) && Polite(s, a)
  {
    if p :| 0 <= p < |s.producers| && InSection(s.producers[p]) {
      a := ProducerStep(p);
    } else {
      hide Inv, Reachable, Enabled, Startable, IndexOk, Exclusive;
      a := NoDeadlock(cfg, s);
    }
  }

  /** With one string left to print and the spooler about to print it, only main has to move. */
  lemma LastPrintPending(cfg: Config, s: State)
    requires Inv(cfg, s) && s.main != Exited
    requires s.spooler == Print && |s.printed| == Expected(cfg) - 1
    ensures Enabled(cfg, s, MainStep)
  {
    hide ClaimsInv, FifoInv, MutexOk, IndexOk, PrintIndexOk, Guarded, Sum;
    SumTight(s.producers, PostedWeight, cfg.strings);
    if s.main.Joining? && s.main.next < |s.producers| {
      assert ProducerShape(cfg, s.producers[s.main.next]);
    }
  }

  /** A run can always be brought to its exit, if wanted without the last print. */
  lemma {:induction false} DriveToExit(cfg: Config, s: State, lose: bool) returns (t: State)
    requires cfg.buffers > 0 && Orderly(cfg, s) && Startable(cfg)
    requires lose ==> |s.printed| <= Expected(cfg) - 1
    ensures Reachable(cfg, t) && t.main == Exited
    ensures lose ==> |t.printed| == Expected(cfg) - 1
    decreases if Remaining(cfg, s) >= 0 then Remaining(cfg, s) else 0
  {
    hide Inv, Reachable, Remaining, IndexOk, Exclusive, Startable, Expected;
    RemainingNonNegative(cfg, s);
    if s.main == Exited {
      Shutdown(cfg, s);
      return s;
    }
    var a;
    if lose && s.spooler == Print && |s.printed| == Expected(cfg) - 1 {
      LastPrintPending(cfg, s);
      a := MainStep;
    } else {
      a := PoliteProgress(cfg, s);
    }
    var next := PoliteStep(cfg, s, a);
    StepGrowsOutput(cfg, s, a);
    TryTakesOne(cfg, s, a);
    RemainingNonNegative(cfg, next);
    t := DriveToExit(cfg, next, lose);
  }

  lemma StepGrowsOutput(cfg: Config, s: State, a: Action)
    requires Enabled(cfg, s, a) && InBounds(s, a)
    ensures |Step(cfg, s, a).printed| == |s.printed| + if a == SpoolerStep && s.spooler == Print then 1 else 0
  {
  }

  /**
   The program can reach its exit exactly if there is nothing to produce, or the mutex opens above
   zero and a buffer or a leftover signal is there.
   */
  lemma ExitBoundary(cfg: Config)
    requires cfg.buffers > 0
    ensures (exists s :: Reachable(cfg, s) && s.main == Exited) <==> Startable(cfg)
  {
    hide Reachable, Inv;
    if Startable(cfg) {
      hide Startable, Orderly;
      InitialOrderly(cfg);
      var s := DriveToExit(cfg, Initial(cfg), false);
    } else if s :| Reachable(cfg, s) && s.main == Exited {
      LockedIsStalled(cfg, s);
      StalledNeverExits(cfg, s);
      assert false;
    }
  }

  lemma StalledNeverExits(cfg: Config, s: State)
    requires Inv(cfg, s) && Stalled(s) && s.main == Exited
    ensures Startable(cfg)
  {
    hide ClaimsInv, FifoInv, MutexOk, IndexOk, PrintIndexOk, TokensOk;
    if cfg.producers > 0 {
      assert ProducerShape(cfg, s.producers[0]);
    }
  }

  /**
   Polling the semaphore is not enough to print everything: whenever there is something to
   print, some run exits with the last string taken by the spooler and never printed.
   */
  lemma LastStringCanBeLost(cfg: Config) returns (s: State)
    requires cfg.buffers > 0 && Startable(cfg) && Expected(cfg) >= 1
    ensures Reachable(cfg, s) && s.main == Exited && |s.printed| == Expected(cfg) - 1
  {
    InitialOrderly(cfg);
    hide Startable, Orderly, Expected;
    s := DriveToExit(cfg, Initial(cfg), true);
  }

  /** So every run that exits has printed everything exactly if there was nothing to print, or none exits. */
  lemma CompleteExitBoundary(cfg: Config)
    requires cfg.buffers > 0
    ensures (forall s :: Reachable(cfg, s) && s.main == Exited ==> |s.printed| == Expected(cfg)) <==>
            Expected(cfg) == 0 || !Startable(cfg)
  {
    ExitBoundary(cfg);
    hide Reachable, Startable, Expected;
    if Startable(cfg) && Expected(cfg) >= 1 {
      var s := LastStringCanBeLost(cfg);
    }
    forall s | Expected(cfg) == 0 && Reachable(cfg, s) && s.main == Exited ensures |s.printed| == Expected(cfg) {
      Shutdown(cfg, s);
    }
  }

  // ---------- After an aborted run ----------

  /**
   What the next run finds when this one ended in state `s`: an exit has unlinked the names, and the
   next run creates them afresh; a run stopped before leaves its values.
   */
  function Reopened(cfg: Config, s: State): Config {
    cfg.(opening := if s.main == Exited then Opening(1, cfg.buffers, 0)
                    else Opening(s.mutex, s.bufferCount, s.spoolSignal))
  }

  /**
   A run stopped anywhere, in a chain of such runs that began with fresh semaphores, leaves values
   from which the next one still excludes producers from each other's section and stays inside the
   array. Unless it came to its exit, the next can come to its own exactly if nobody was in the
   section and some token was not in a thread's hands, and prints in order what is signalled in
   order exactly if no signal was left.
   */
  lemma AbortedRunLeaves(cfg: Config, s: State)
    requires cfg.buffers > 0 && cfg.opening.mutex <= 1 && Tokens(cfg) <= cfg.buffers && Reachable(cfg, s)
    ensures
      var again := Reopened(cfg, s);
      && again.opening.mutex <= 1 && Tokens(again) <= cfg.buffers && (s.main == Exited ==> Fresh(again))
      && (forall t :: Reachable(again, t) ==> Exclusive(t.producers))
      && (forall t, a :: Reachable(again, t) && Enabled(again, t, a) ==> InBounds(t, a))
      && ((exists t :: Reachable(again, t) && t.main == Exited) <==>
          || s.main == Exited
          || cfg.producers * cfg.strings == 0
          || (&& cfg.opening.mutex == 1 && s.bufferCount + s.spoolSignal > 0
              && forall p :: 0 <= p < |s.producers| ==> !InSection(s.producers[p])))
      && ((forall t :: Reachable(again, t) && InOrder(t.posts) ==> Fifo(t.claims, t.printed)) <==>
          s.main == Exited || s.spoolSignal == 0)
  {
    var again := Reopened(cfg, s);
    ReachableInv(cfg, s);
    MutexCounts(cfg, s.producers, s.mutex);
    TokensNeverGrow(cfg, s);
    hide Reachable, Inv, Exclusive, Enabled, InBounds, InOrder, Fifo, InSection;
    MutexBoundary(again);
    BoundsBoundary(again);
    ExitBoundary(again);
    InOrderBoundary(again);
  }

  lemma TokensNeverGrow(cfg: Config, s: State)
    requires Inv(cfg, s)
    ensures s.bufferCount + s.spoolSignal <= Tokens(cfg)
  {
    SumNonNegative(s.producers, TokenWeight);
  }
}
