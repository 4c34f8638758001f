/** Exactly when a slow producer can end up sharing its slot with a later one. */
module RingSharing {
  import opened Sums
  import opened RingModel
  import opened RingInvariant
  import opened RingBoundary
  import opened RingProgress

  /** Two producers hold the same slot index and have not signalled yet. */
  ghost predicate SharedSlot(s: State) {
    exists p, q :: 0 <= p < |s.producers| && 0 <= q < |s.producers| && p != q
      && Pending(s.producers[p]) && Pending(s.producers[q]) && s.producers[p].j == s.producers[q].j
  }

  /**
   There are two producers and the means to claim twice; and either two producers can meet in the
   index section, or one can sleep through a whole lap of claims by the others.
   */
  predicate Roomy(cfg: Config) {
    && cfg.opening.mutex >= 1 && cfg.producers >= 2 && Tokens(cfg) >= 2
    && (Guarded(cfg) ==> (cfg.producers - 1) * cfg.strings >= cfg.buffers)
  }

  // ---------- Sharing needs a lap of other producers' claims ----------

  lemma {:induction false} ProjectLength(items: seq<Item>, p: nat)
    ensures |Project(items, p)| <= |items|
  {
    if items != [] {
      ProjectLength(items[..|items| - 1], p);
    }
  }

  lemma {:induction false} ProjectStops(items: seq<Item>, n: nat, p: nat)
    requires n <= |items| && forall k :: n <= k < |items| ==> items[k].producer != p
    ensures Project(items, p) == Project(items[..n], p)
  {
    if n == |items| {
      assert items[..n] == items;
    } else {
      ProjectStops(items[..|items| - 1], n, p);
      assert items[..|items| - 1][..n] == items[..n];
    }
  }

  /** A pending producer has made no claim after its own. */
  lemma PendingClaimIsLast(cfg: Config, s: State, p: nat)
    requires Inv(cfg, s) && p < |s.producers| && Pending(s.producers[p])
    ensures s.producers[p].claim < |s.claims|
    ensures forall c :: s.producers[p].claim < c < |s.claims| ==> s.claims[c].producer != p
  {
    hide CountsInv, FifoInv, IndexOk, Guarded, SlotsOk, OrderOk;
    assert s.claims[s.producers[p].claim] == Item(p, Claimed(s.producers[p]));
  }

  /** So all its claims are up to that one. */
  lemma PendingClaimCounts(cfg: Config, s: State, p: nat)
    requires Inv(cfg, s) && p < |s.producers| && Pending(s.producers[p])
    ensures Claimed(s.producers[p]) <= s.producers[p].claim + 1
  {
    PendingClaimIsLast(cfg, s, p);
    hide CountsInv, FifoInv, IndexOk, Guarded, ClaimsOk, NumbersOk, SlotsOk;
    assert Project(s.claims, p) == UpTo(Claimed(s.producers[p]));
    hide OrderOk, ClaimsInv, Inv, Project, Claimed, Pending;
    var c := s.producers[p].claim;
    ProjectStops(s.claims, c + 1, p);
    ProjectLength(s.claims[..c + 1], p);
  }

  lemma OthersTotal(cfg: Config, s: State, p: nat)
    requires Inv(cfg, s) && p < |s.producers|
    ensures |s.claims| <= (cfg.producers - 1) * cfg.strings + Claimed(s.producers[p])
  {
    assert |s.claims| == Sum(s.producers, ClaimedWeight) && |s.producers| == cfg.producers by {
      ClaimsTotal(cfg, s);
      hide Sum, Claimed;
    }
    ClaimedBound(cfg, s);
    hide *;
    SumOthers(s.producers, ClaimedWeight, p, cfg.strings);
    assert ClaimedWeight(s.producers[p]) == Claimed(s.producers[p]) by {
      OneClaimedWeight(s.producers[p]);
    }
  }

  lemma OneClaimedWeight(m: Producer)
    ensures ClaimedWeight(m) == Claimed(m)
  {
  }

  lemma ClaimedBound(cfg: Config, s: State)
    requires Shape(cfg, s)
    ensures forall k :: 0 <= k < |s.producers| ==> ClaimedWeight(s.producers[k]) <= cfg.strings
  {
    assert forall k :: 0 <= k < |s.producers| ==> ProducerShape(cfg, s.producers[k]);
  }

  /**
   If two producers with exclusive access to the index hold the same slot, then the others have
   claimed a whole lap since the first of them did, and it has claimed nothing itself.
   */
  lemma SharingNeedsLap(cfg: Config, s: State, p: nat, q: nat)
    requires cfg.buffers > 0 && Guarded(cfg) && Inv(cfg, s) && p < |s.producers| && q < |s.producers|
    requires Pending(s.producers[p]) && Pending(s.producers[q]) && s.producers[p].j == s.producers[q].j
    requires s.producers[p].claim < s.producers[q].claim
    ensures s.producers[p].claim + cfg.buffers <= s.producers[q].claim < |s.claims|
    ensures forall c :: s.producers[p].claim < c <= s.producers[q].claim ==> s.claims[c].producer != p
    ensures (cfg.producers - 1) * cfg.strings >= cfg.buffers
  {
    PendingClaimIsLast(cfg, s, p);
    PendingClaimIsLast(cfg, s, q);
    PendingClaimCounts(cfg, s, p);
    OthersTotal(cfg, s, p);
    hide CountsInv, FifoInv, ClaimsInv, Guarded;
    assert PlaceOk(cfg, s.producers[p], |s.claims|, s.produceIndex);
    assert PlaceOk(cfg, s.producers[q], |s.claims|, s.produceIndex);
    hide IndexOk;
    if s.producers[q].claim < s.producers[p].claim + cfg.buffers {
      ModDistinct(s.producers[p].claim, s.producers[q].claim, cfg.buffers);
    }
  }

  // ---------- A run that shares ----------

  /** Producer 0 sleeps before its sprintf into slot 0, and the lap is not complete. */
  predicate Asleep(cfg: Config, s: State) {
    && |s.producers| > 0 && s.producers[0].pc == Fill && s.producers[0].j == 0
    && |s.claims| <= cfg.buffers
  }

  /** While producer 0 sleeps before its sprintf and a lap is not complete, somebody else can move. */
  lemma OthersProgress(cfg: Config, s: State) returns (a: Action)
    requires Inv(cfg, s) && Guarded(cfg) && Roomy(cfg) && s.main != Exited
    requires s.producers[0].pc == Fill && |s.claims| <= cfg.buffers
    ensures Enabled(cfg, s, a) && a != ProducerStep(0) && !a.MainStep?
  {
    if Enabled(cfg, s, SpoolerStep) {
      return SpoolerStep;
    }
    if p :| 0 < p < |s.producers| && Enabled(cfg, s, ProducerStep(p)) {
      return ProducerStep(p);
    }
    hide Roomy;
    OthersOutside(cfg, s);
    OthersFinished(cfg, s);
    assert false;
  }

  lemma OthersOutside(cfg: Config, s: State)
    requires Inv(cfg, s) && Roomy(cfg) && s.main != Exited && |s.producers| > 0 && s.producers[0].pc == Fill
    requires forall p :: 0 < p < |s.producers| ==> !Enabled(cfg, s, ProducerStep(p))
    ensures forall p :: 0 < p < |s.producers| ==>
              s.producers[p].pc == Finished || (s.producers[p].pc == GetBuffer && s.bufferCount == 0)
  {
    hide Shape, MainOk, TokensOk, PrintIndexOk, ClaimsInv, FifoInv, IndexOk, Guarded;
    forall p | 0 <= p < |s.producers| ensures !InSection(s.producers[p]) {
      assert p > 0 ==> !Enabled(cfg, s, ProducerStep(p));
    }
    MutexCounts(cfg, s.producers, s.mutex);
    forall p | 0 < p < |s.producers|
      ensures s.producers[p].pc == Finished || (s.producers[p].pc == GetBuffer && s.bufferCount == 0)
    {
      assert !Enabled(cfg, s, ProducerStep(p));
    }
  }

  lemma OthersFinished(cfg: Config, s: State)
    requires Inv(cfg, s) && Guarded(cfg) && Roomy(cfg) && s.main != Exited && s.producers[0].pc == Fill
    requires !Enabled(cfg, s, SpoolerStep)
    requires forall p :: 0 < p < |s.producers| ==>
              s.producers[p].pc == Finished || (s.producers[p].pc == GetBuffer && s.bufferCount == 0)
    ensures |s.claims| > cfg.buffers
  {
    hide MainOk, MutexOk, PrintIndexOk, ClaimsInv, FifoInv, IndexOk, Guarded, Sum;
    SumOthers(s.producers, TokenWeight, 0, 0);
    assert s.bufferCount == Tokens(cfg) - 1;
    SumOthers(s.producers, PendingWeight, 0, 0);
    SumOthers(s.producers, PostedWeight, 0, cfg.strings);
  }

  /** The claim that completes the lap gets slot 0 again. */
  lemma LapSharesSlot(cfg: Config, s: State, p: nat)
    requires Inv(cfg, s) && Guarded(cfg) && 0 < p < |s.producers|
    requires s.producers[0].pc == Fill && s.producers[0].j == 0 && s.producers[p].pc == ReadIndex
    requires Enabled(cfg, s, ProducerStep(p)) && InBounds(s, ProducerStep(p))
    requires |s.claims| == cfg.buffers
    ensures SharedSlot(StepProducer(cfg, s, p))
  {
    MutualExclusion(cfg, s);
    assert cfg.buffers > 0 && IndexOk(cfg, s.producers, |s.claims|, s.produceIndex);
    hide CountsInv, ClaimsInv, FifoInv, Guarded, PlaceOk;
    assert forall q :: 0 <= q < |s.producers| ==> !Moving(s.producers[q]) by {
      assert InSection(s.producers[p]);
    }
    ModUnique(cfg.buffers, cfg.buffers, 1, 0);
    var t := StepProducer(cfg, s, p);
    assert t.producers[0] == s.producers[0] && Pending(t.producers[p]) && t.producers[p].j == 0;
  }

  lemma StepSparesSleeper(cfg: Config, s: State, a: Action)
    requires |s.producers| > 0 && a != ProducerStep(0) && !a.MainStep? && Enabled(cfg, s, a) && InBounds(s, a)
    ensures
      var t := Step(cfg, s, a);
      && t.main == s.main && |t.producers| == |s.producers| && t.producers[0] == s.producers[0]
      && (|t.claims| > |s.claims| ==>
            && a.ProducerStep? && 0 < a.p < |s.producers| && s.producers[a.p].pc == ReadIndex
            && |t.claims| == |s.claims| + 1 && t == StepProducer(cfg, s, a.p))
  {
    hide Filled;
  }

  /** That move either completes the lap or leaves producer 0 asleep. */
  lemma OthersMove(cfg: Config, s: State) returns (t: State)
    requires Roomy(cfg) && Guarded(cfg) && Reachable(cfg, s) && Inv(cfg, s) && s.main.Joining?
    requires Asleep(cfg, s)
    ensures Reachable(cfg, t) && Inv(cfg, t) && t.main.Joining? && (SharedSlot(t) || Asleep(cfg, t))
    ensures Remaining(cfg, t) < Remaining(cfg, s)
  {
    var a := OthersProgress(cfg, s);
    hide Inv, Reachable, Roomy, Guarded, Remaining, SharedSlot, Step, StepProducer, Enabled, InBounds;
    StepKeepsInv(cfg, s, a);
    StepSparesSleeper(cfg, s, a);
    TryTakesOne(cfg, s, a);
    t := Next(cfg, s, a);
    if |t.claims| > cfg.buffers {
      LapSharesSlot(cfg, s, a.p);
    }
  }

  lemma {:induction false} DriveToShared(cfg: Config, s: State) returns (t: State)
    requires Roomy(cfg) && Guarded(cfg) && Reachable(cfg, s) && Inv(cfg, s) && s.main.Joining?
    requires Asleep(cfg, s)
    ensures Reachable(cfg, t) && SharedSlot(t)
    decreases if Remaining(cfg, s) >= 0 then Remaining(cfg, s) else 0
  {
    hide Inv, Reachable, Roomy, Guarded, Remaining, SharedSlot, Asleep;
    t := OthersMove(cfg, s);
    RemainingNonNegative(cfg, s);
    RemainingNonNegative(cfg, t);
    if !SharedSlot(t) {
      t := DriveToShared(cfg, t);
    }
  }

  lemma SharedSlotReachable(cfg: Config) returns (t: State)
    requires cfg.buffers > 0 && Roomy(cfg)
    ensures Reachable(cfg, t) && SharedSlot(t)
  {
    hide Reachable, Inv;
    if Guarded(cfg) {
      var s := StockedReachable(cfg, 1);
      assert cfg.strings > 0;
      hide Guarded, Roomy, SharedSlot;
      s := TakeIndex(cfg, s, 0);
      ReachableInv(cfg, s);
      t := DriveToShared(cfg, s);
    } else {
      var s;
      s, t := MeetInSection(cfg);
      assert Pending(t.producers[0]) && Pending(t.producers[1]);
    }
  }

  /**
   The exact boundary of slot exclusivity: two unsignalled producers can hold the same slot if and
   only if the configuration is roomy; from fresh semaphores, if there are at least two producers,
   at least two buffers, and the others together have a lap's worth of strings to claim while one
   sleeps.
   */
  lemma SharingBoundary(cfg: Config)
    requires cfg.buffers > 0
    ensures (exists s :: Reachable(cfg, s) && SharedSlot(s)) <==> Roomy(cfg)
    ensures Fresh(cfg) ==>
              ((exists s :: Reachable(cfg, s) && SharedSlot(s)) <==>
               cfg.producers >= 2 && cfg.buffers >= 2 && (cfg.producers - 1) * cfg.strings >= cfg.buffers)
  {
    hide Reachable, SharedSlot;
    if Roomy(cfg) {
      var t := SharedSlotReachable(cfg);
    }
    if s :| Reachable(cfg, s) && SharedSlot(s) {
      SharingIsRoomy(cfg, s);
    }
  }

  lemma SharingIsRoomy(cfg: Config, s: State)
    requires cfg.buffers > 0 && Reachable(cfg, s) && SharedSlot(s)
    ensures Roomy(cfg)
  {
    hide Reachable, Guarded;
    ReachableInv(cfg, s);
    var p: nat, q: nat :| p < |s.producers| && q < |s.producers| && p != q
      && Pending(s.producers[p]) && Pending(s.producers[q]) && s.producers[p].j == s.producers[q].j;
    PendingClaimsDiffer(s, p, q);
    TwoPendingMeans(cfg, s, p, q);
    hide Inv;
    if Guarded(cfg) {
      if s.producers[p].claim < s.producers[q].claim {
        SharingNeedsLap(cfg, s, p, q);
      } else {
        SharingNeedsLap(cfg, s, q, p);
      }
    }
  }

  lemma TwoPendingMeans(cfg: Config, s: State, p: nat, q: nat)
    requires cfg.buffers > 0 && Reachable(cfg, s)
    requires p < |s.producers| && q < |s.producers| && p != q
    requires Pending(s.producers[p]) && Pending(s.producers[q])
    ensures cfg.opening.mutex >= 1 && cfg.producers >= 2 && Tokens(cfg) >= 2
  {
    if Locked(cfg) {
      LockedIsStalled(cfg, s);
      assert false;
    }
    ReachableInv(cfg, s);
    hide Reachable, MainOk, MutexOk, PrintIndexOk, ClaimsInv, FifoInv, IndexOk, Guarded, Sum;
    SumAtLeastTwo(s.producers, TokenWeight, if p < q then p else q, if p < q then q else p);
  }
}
