/** What one turn of a thread does: which semaphore can block it, and which statement comes next. */
module RingTurns {
  import opened RingModel
  import opened RingInvariant
  import opened RingBoundary

  // ---------- Blocking ----------

  /**
   Before the exit a thread is held up by its own wait and by nothing else: a producer by the
   semaphore it is about to take, the spooler by the signals, main by the producer it joins and at
   its poll by a signal still pending. Every other statement is executed on its thread's next turn,
   but for a write outside the array, which BoundsBoundary places.
   */
  lemma BlockedByOwnWait(cfg: Config, s: State, a: Action)
    requires cfg.buffers > 0 && Reachable(cfg, s) && s.main != Exited
    ensures Try(cfg, s, a) == s <==>
            match a
            case ProducerStep(p) =>
              || p >= |s.producers|
              || s.producers[p].pc == Finished
              || (s.producers[p].pc == GetBuffer && s.bufferCount == 0)
              || (s.producers[p].pc == GetMutex && s.mutex == 0)
              || (s.producers[p].pc == Fill && s.producers[p].j >= |s.slots|)
            case SpoolerStep => s.spooler == GetString && s.spoolSignal == 0
            case MainStep =>
              s.main.Joining? &&
              if s.main.next < |s.producers| then s.producers[s.main.next].pc != Finished else s.spoolSignal > 0
  {
    ReachableInv(cfg, s);
    if Enabled(cfg, s, a) {
      InvGivesBounds(cfg, s, a);
      if InBounds(s, a) {
        EnabledMoves(cfg, s, a);
      }
    }
    hide Reachable, Step, Inv;
  }

  lemma EnabledMoves(cfg: Config, s: State, a: Action)
    requires Enabled(cfg, s, a) && InBounds(s, a)
    ensures Step(cfg, s, a) != s
  {
    hide Filled;
    if a.ProducerStep? {
      var t := StepProducer(cfg, s, a.p);
      assert t.producers[a.p].pc != s.producers[a.p].pc || t.producers[a.p].i != s.producers[a.p].i;
    }
  }

  // ---------- Program order ----------

  /** The statement below this one in the producer's loop, and its first one again below the last. */
  function Below(pc: ProducerPc): ProducerPc {
    match pc
    case GetBuffer => GetMutex
    case GetMutex => ReadIndex
    case ReadIndex => BumpIndex
    case BumpIndex => WrapIndex
    case WrapIndex => PutMutex
    case PutMutex => Fill
    case Fill => Signal
    case Signal => GetBuffer
    case Finished => Finished
  }

  function BelowInSpooler(pc: SpoolerPc): SpoolerPc {
    match pc
    case GetString => Print
    case Print => BumpPrint
    case BumpPrint => WrapPrint
    case WrapPrint => PutBuffer
    case PutBuffer => GetString
  }

  /** Behind the last string the producer leaves its loop. */
  lemma ProducerOrder(cfg: Config, s: State, p: nat)
    requires Enabled(cfg, s, ProducerStep(p)) && InBounds(s, ProducerStep(p)) && ProducerShape(cfg, s.producers[p])
    ensures
      var me, t := s.producers[p], StepProducer(cfg, s, p);
      && t.producers == s.producers[p := t.producers[p]]
      && t.spooler == s.spooler && t.printed == s.printed && t.main == s.main
      && t.producers[p].pc ==
         if me.pc == Signal && me.i == cfg.strings - 1 then Finished else Below(me.pc)
  {
  }

  lemma SpoolerOrder(cfg: Config, s: State)
    requires Enabled(cfg, s, SpoolerStep) && InBounds(s, SpoolerStep)
    ensures
      var t := StepSpooler(cfg, s);
      t.producers == s.producers && t.main == s.main && t.spooler == BelowInSpooler(s.spooler)
  {
    hide Filled;
  }

  /**
   A turn takes its own thread at most one statement further down its loop, out of it after the last
   string, and leaves the positions and locals of all other threads alone.
   */
  lemma TurnOrder(cfg: Config, s: State, a: Action)
    requires cfg.buffers > 0 && Reachable(cfg, s) && Try(cfg, s, a) != s
    ensures
      var t := Try(cfg, s, a);
      && |t.producers| == |s.producers|
      && (forall q :: 0 <= q < |s.producers| && a != ProducerStep(q) ==> t.producers[q] == s.producers[q])
      && (a != SpoolerStep ==> t.spooler == s.spooler && t.printed == s.printed)
      && (a != MainStep ==> t.main == s.main)
      && match a
         case ProducerStep(p) =>
           p < |s.producers| &&
           t.producers[p].pc == if s.producers[p].pc == Signal && s.producers[p].i == cfg.strings - 1 then Finished
                                else Below(s.producers[p].pc)
         case SpoolerStep => t.spooler == BelowInSpooler(s.spooler)
         case MainStep =>
           t.main ==
           if s.main.Joining? && s.main.next < |s.producers| then Joining(s.main.next + 1)
           else if s.main.Joining? then Cancelling
           else Exited
  {
    if a.ProducerStep? {
      assert ProducerShape(cfg, s.producers[a.p]) by {
        ReachableInv(cfg, s);
      }
      hide Reachable, StepProducer, ProducerShape;
      ProducerOrder(cfg, s, a.p);
    } else if a == SpoolerStep {
      hide Reachable, StepSpooler;
      SpoolerOrder(cfg, s);
    }
  }

  // ---------- All buffers taken while one producer is in the section ----------

  /** Producer 0 is in the section and the first k producers hold a buffer each. */
  ghost predicate Crowded(cfg: Config, s: State, k: nat) {
    && Reachable(cfg, s) && s.main == Joining(0) && |s.producers| == cfg.producers && 1 <= k <= cfg.producers
    && s.producers[0].pc == ReadIndex && s.mutex == cfg.opening.mutex - 1
    && s.bufferCount == cfg.opening.bufferCount - k && s.claims == [] && s.posts == []
    && (forall q :: 1 <= q < k ==> s.producers[q].pc == GetMutex)
    && (forall q :: k <= q < cfg.producers ==> s.producers[q].pc == GetBuffer)
  }

  lemma {:induction false} Crowd(cfg: Config, k: nat) returns (s: State)
    requires cfg.strings > 0 && cfg.opening.mutex > 0 && 1 <= k <= cfg.producers && k <= cfg.opening.bufferCount
    ensures Crowded(cfg, s, k)
    decreases k
  {
    hide Reachable;
    if k == 1 {
      InitialReachable(cfg);
      s := EnterSection(cfg, Initial(cfg), 0);
    } else {
      var u := Crowd(cfg, k - 1);
      s := Next(cfg, u, ProducerStep(k - 1));
    }
  }

  /**
   The wait for a buffer comes before the mutex and does not need it: with enough producers some run
   hands out every buffer while one producer is in the section.
   */
  lemma BuffersRunOut(cfg: Config) returns (s: State)
    requires cfg.strings > 0 && cfg.opening.mutex > 0 && 1 <= cfg.opening.bufferCount <= cfg.producers
    ensures Reachable(cfg, s) && s.bufferCount == 0 && s.claims == [] && s.posts == []
    ensures |s.producers| > 0 && InSection(s.producers[0])
    ensures forall q :: 1 <= q < cfg.opening.bufferCount ==> q < |s.producers| && s.producers[q].pc == GetMutex
  {
    hide Reachable;
    s := Crowd(cfg, cfg.opening.bufferCount);
  }
}
