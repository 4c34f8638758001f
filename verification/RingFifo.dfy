/** When the ring is a FIFO queue, and what its indices, slots and output are. */
module RingFifo {
  import opened Sums
  import opened RingModel
  import opened RingInvariant

  /** The opening gives every guarantee to runs that signal in order; a fresh one does. */
  predicate Sound(cfg: Config) {
    cfg.opening.spoolSignal == 0 && Guarded(cfg) && Spaced(cfg)
  }

  /** The prints follow the claims exactly when each of them found its own string already written. */
  lemma FifoExactlyWhenReady(cfg: Config, s: State)
    requires cfg.buffers > 0 && Guarded(cfg) && Spaced(cfg) && Reachable(cfg, s)
    ensures Fifo(s.claims, s.printed) <==> AllReady(s.ready)
  {
    ReachableInv(cfg, s);
    hide Reachable, CountsInv, ClaimsInv, IndexOk, Guarded, Spaced, Intact, InOrder, Filled;
  }

  /** Posting in claim order is enough, for any number of producers and buffers. */
  lemma InOrderIsFifo(cfg: Config, s: State)
    requires cfg.buffers > 0 && Sound(cfg) && Reachable(cfg, s) && InOrder(s.posts)
    ensures Fifo(s.claims, s.printed)
  {
    ReachableInv(cfg, s);
    hide Reachable, CountsInv, ClaimsInv, IndexOk, Guarded, Spaced, Intact, InOrder, Fifo, AllReady;
  }

  // ---------- Counting ----------

  /**
   Buffer tokens are conserved from any opening, and the three counters stay within its buffers of
   each other: from fresh semaphores the print index never overtakes the produce index and never
   lags it by more than a lap.
   */
  lemma TokenConservation(cfg: Config, s: State)
    requires cfg.buffers > 0 && Reachable(cfg, s)
    ensures s.bufferCount + Sum(s.producers, TokenWeight) + s.spoolSignal
            + (if s.spooler == GetString then 0 else 1) == Tokens(cfg)
    ensures 0 <= Released(s) <= |s.posts| + cfg.opening.spoolSignal
    ensures |s.posts| <= |s.claims| <= Released(s) + cfg.opening.bufferCount
  {
    ReachableInv(cfg, s);
    Window(cfg, s);
  }

  /**
   The mutex makes claim numbers out of a wrapping index: at most one producer is in the section,
   outside it the index is the number of claims modulo the buffers, and each producer's j is its
   own claim number modulo the buffers.
   */
  lemma ProduceIndexCountsClaims(cfg: Config, s: State)
    requires cfg.buffers > 0 && Guarded(cfg) && Reachable(cfg, s)
    ensures Exclusive(s.producers)
    ensures s.mutex == cfg.opening.mutex ==> s.produceIndex == |s.claims| % cfg.buffers
    ensures forall p :: 0 <= p < |s.producers| && Pending(s.producers[p]) ==>
              s.producers[p].j == s.producers[p].claim % cfg.buffers
  {
    ReachableInv(cfg, s);
    MutualExclusion(cfg, s);
    MutexCounts(cfg, s.producers, s.mutex);
    hide Reachable, Shape, PrintIndexOk, MainOk, TokensOk, MutexOk, ClaimsInv, FifoInv, Exclusive, Guarded;
    if s.mutex == cfg.opening.mutex {
      assert forall p :: 0 <= p < |s.producers| ==> InSection(s.producers[p]) || !Moving(s.producers[p]);
    }
    assert forall p :: 0 <= p < |s.producers| ==> PlaceOk(cfg, s.producers[p], |s.claims|, s.produceIndex);
  }

  /** The spooler's wrapping index is the number of released buffers, one ahead just before the release. */
  lemma PrintIndexCountsReleases(cfg: Config, s: State)
    requires cfg.buffers > 0 && Reachable(cfg, s)
    ensures 0 <= Released(s)
    ensures s.spooler.GetString? || s.spooler.Print? || s.spooler.BumpPrint? ==>
              s.printIndex == Released(s) % cfg.buffers
    ensures s.spooler.PutBuffer? ==> s.printIndex == (Released(s) + 1) % cfg.buffers
  {
    hide Reachable, Shape, MainOk, MutexOk, IndexOk, PrintIndexOk, TokensOk, ClaimsInv, FifoInv;
    ReachableInv(cfg, s);
    PrintIndexOkMeans(cfg, s);
  }

  lemma PrintIndexOkMeans(cfg: Config, s: State)
    requires cfg.buffers > 0 && PrintIndexOk(cfg, s.spooler, |s.printed|, s.printIndex)
    ensures 0 <= Released(s)
    ensures s.spooler.GetString? || s.spooler.Print? || s.spooler.BumpPrint? ==>
              s.printIndex == Released(s) % cfg.buffers
    ensures s.spooler.PutBuffer? ==> s.printIndex == (Released(s) + 1) % cfg.buffers
  {
  }

  // ---------- Slots ----------

  /** Claims that still need their slot: handed out and not yet released by the spooler. */
  predicate Live(s: State, c: nat) {
    Released(s) <= c < |s.claims|
  }

  /** In the window of live claims no two share a slot, in any run. */
  lemma LiveClaimsHaveOwnSlots(cfg: Config, s: State, c: nat, d: nat)
    requires cfg.buffers > 0 && Spaced(cfg) && Reachable(cfg, s) && Live(s, c) && Live(s, d) && c != d
    ensures c % cfg.buffers != d % cfg.buffers
  {
    ReachableInv(cfg, s);
    Window(cfg, s);
    hide Inv, Reachable, Spaced;
    if c < d {
      ModDistinct(c, d, cfg.buffers);
    } else {
      ModDistinct(d, c, cfg.buffers);
    }
  }

  /**
   With posts in order, the slot of a producer about to write is shared neither with another
   pending producer nor with a string posted and not yet released: no slot is rewritten between
   its post and the end of its print.
   */
  lemma SlotExclusive(cfg: Config, s: State, p: nat)
    requires cfg.buffers > 0 && Sound(cfg) && Reachable(cfg, s) && InOrder(s.posts)
    requires p < |s.producers| && Pending(s.producers[p])
    ensures forall q :: 0 <= q < |s.producers| && q != p && Pending(s.producers[q]) ==>
              s.producers[q].j != s.producers[p].j
    ensures forall c :: Released(s) <= c < |s.posts| ==> s.producers[p].j != c % cfg.buffers
  {
    ReachableInv(cfg, s);
    TokenConservation(cfg, s);
    ProduceIndexCountsClaims(cfg, s);
    PendingIsPastPosts(s, p);
    forall q | 0 <= q < |s.producers| && q != p && Pending(s.producers[q])
      ensures s.producers[q].j != s.producers[p].j
    {
      PendingIsPastPosts(s, q);
      PendingClaimsDiffer(s, p, q);
      hide Inv, Reachable, Spaced, Guarded, InOrder, Exclusive, Pending;
      LiveClaimsHaveOwnSlots(cfg, s, s.producers[p].claim, s.producers[q].claim);
    }
    hide Inv, Reachable, Spaced, Guarded, InOrder, Exclusive;
    forall c | Released(s) <= c < |s.posts| ensures s.producers[p].j != c % cfg.buffers {
      LiveClaimsHaveOwnSlots(cfg, s, s.producers[p].claim, c);
    }
  }

  lemma PendingIsPastPosts(s: State, p: nat)
    requires ClaimsOk(s.producers, s.claims, s.posts) && InOrder(s.posts)
    requires p < |s.producers| && Pending(s.producers[p])
    ensures |s.posts| <= s.producers[p].claim < |s.claims|
  {
    forall k | 0 <= k < |s.posts| ensures k in s.posts {
      assert s.posts[k] == k;
    }
  }

  // ---------- Refinement ----------

  /** The abstract queue: strings posted and not yet printed. */
  function Queue(s: State): seq<Item>
    requires |s.printed| <= |s.posts| <= |s.claims|
  {
    s.claims[|s.printed|..|s.posts|]
  }

  /** Without leftover signals the counters are ordered and the queue is bounded by the buffers opened. */
  lemma QueueBounds(cfg: Config, s: State)
    requires Inv(cfg, s) && cfg.opening.spoolSignal == 0
    ensures |s.printed| <= |s.posts| <= |s.claims|
    ensures |Queue(s)| <= cfg.opening.bufferCount
  {
    Window(cfg, s);
  }

  lemma SignalEnqueues(cfg: Config, s: State, p: nat)
    requires Inv(cfg, s) && cfg.opening.spoolSignal == 0 && p < |s.producers| && s.producers[p].pc == Signal
    requires InOrder(s.posts + [s.producers[p].claim])
    ensures |s.printed| <= |s.posts| < |s.claims|
    ensures s.claims[|s.printed|..|s.posts| + 1] == Queue(s) + [Item(p, s.producers[p].count)]
  {
    QueueBounds(cfg, s);
    var posts := s.posts + [s.producers[p].claim];
    assert posts[|s.posts|] == s.producers[p].claim;
    assert s.claims[|s.posts|] == Item(p, s.producers[p].i + 1);
  }

  lemma PrintDequeues(cfg: Config, s: State)
    requires Inv(cfg, s) && Sound(cfg) && s.spooler == Print && InOrder(s.posts)
    ensures |s.printed| < |s.posts| <= |s.claims| && s.printIndex < |s.slots|
    ensures s.slots[s.printIndex] == Text(Queue(s)[0])
    ensures s.claims[|s.printed| + 1..|s.posts|] == Queue(s)[1..]
  {
    Window(cfg, s);
    ModInRange(|s.printed|, cfg.buffers);
    InOrderIsReady(cfg, s);
    hide ClaimsInv, MutexOk, MainOk, IndexOk, Guarded, Spaced, AllReady, ReadyOk;
    assert !Filled(s.producers, s.claims, |s.printed| + cfg.buffers);
  }

  /**
   In runs that post in order every step refines a queue bounded by the buffers opened:
   sem_post(spool_signal_sem) enqueues the producer's string, printf takes the oldest string
   and prints it, and all other steps leave the queue and the output alone.
   */
  lemma RefinesBoundedQueue(cfg: Config, s: State, a: Action)
    requires Inv(cfg, s) && Sound(cfg) && Enabled(cfg, s, a) && InBounds(s, a)
    requires InOrder(Step(cfg, s, a).posts)
    ensures
      var t := Step(cfg, s, a);
      && |s.printed| <= |s.posts| <= |s.claims| && |t.printed| <= |t.posts| <= |t.claims|
      && |Queue(t)| <= cfg.opening.bufferCount
      && match a
         case ProducerStep(p) =>
           && t.printed == s.printed
           && Queue(t) == Queue(s) + if s.producers[p].pc == Signal then [Item(p, s.producers[p].count)] else []
         case SpoolerStep =>
           if s.spooler == Print then
             Queue(s) != [] && Queue(t) == Queue(s)[1..] && t.printed == s.printed + [Text(Queue(s)[0])]
           else
             Queue(t) == Queue(s) && t.printed == s.printed
         case MainStep => Queue(t) == Queue(s) && t.printed == s.printed
  {
    hide Inv, Guarded, Spaced;
    var t := Step(cfg, s, a);
    QueueBounds(cfg, s);
    StepKeepsInv(cfg, s, a);
    QueueBounds(cfg, t);
    if a.ProducerStep? && s.producers[a.p].pc == Signal {
      SignalEnqueues(cfg, s, a.p);
    } else if a == SpoolerStep && s.spooler == Print {
      PrintDequeues(cfg, s);
    }
  }

  // ---------- Output, producer by producer ----------

  /** The numbers of producer p's strings among the printed ones, in order. */
  function PrintedNumbers(printed: seq<Slot>, p: nat): seq<nat> {
    if printed == [] then []
    else
      var last := printed[|printed| - 1];
      PrintedNumbers(printed[..|printed| - 1], p) +
      if last.Text? && last.item.producer == p then [last.item.number] else []
  }

  lemma {:induction false} PrintedIsProjection(claims: seq<Item>, printed: seq<Slot>, p: nat)
    requires Fifo(claims, printed)
    ensures PrintedNumbers(printed, p) == Project(claims[..|printed|], p)
  {
    if printed != [] {
      var n := |printed| - 1;
      PrintedIsProjection(claims, printed[..n], p);
      assert claims[..n + 1][..n] == claims[..n];
    }
  }

  lemma {:induction false} ProjectPrefix(items: seq<Item>, n: nat, p: nat)
    requires n <= |items|
    ensures Project(items[..n], p) <= Project(items, p)
  {
    if n == |items| {
      assert items[..n] == items;
    } else {
      ProjectPrefix(items[..|items| - 1], n, p);
      assert items[..|items| - 1][..n] == items[..n];
    }
  }

  /**
   In a FIFO run, from whatever opening, the output restricted to one producer is 1, 2, 3, ... in
   order: an interleaving of the producers' own sequences, without loss in the middle and without
   duplicates.
   */
  lemma OutputIsInterleaving(cfg: Config, s: State, p: nat)
    requires cfg.buffers > 0 && Reachable(cfg, s) && Fifo(s.claims, s.printed) && p < cfg.producers
    ensures PrintedNumbers(s.printed, p) <= UpTo(cfg.strings)
  {
    ReachableInv(cfg, s);
    hide Reachable, MainOk, MutexOk, IndexOk, PrintIndexOk, TokensOk, ClaimsOk, NumbersOk, SlotsOk, FifoInv;
    PrintedIsProjection(s.claims, s.printed, p);
    ProjectPrefix(s.claims, |s.printed|, p);
    assert Claimed(s.producers[p]) <= cfg.strings;
  }
}
