/** What the printed output alone tells: whether a run was in order, and whether it was complete. */
module RingOutput {
  import opened Sums
  import opened RingModel
  import opened RingInvariant
  import opened RingFifo
  import opened RingBoundary
  import opened RingProgress

  /** The output shows a slot nobody wrote, or one string twice. */
  predicate Spoiled(printed: seq<Slot>) {
    || (exists k :: 0 <= k < |printed| && printed[k] == Blank)
    || (exists i, j :: 0 <= i < j < |printed| && printed[i] == printed[j])
  }

  lemma SpoiledStays(printed: seq<Slot>, slot: Slot)
    requires Spoiled(printed)
    ensures Spoiled(printed + [slot])
  {
    var longer := printed + [slot];
    assert forall k :: 0 <= k < |printed| ==> longer[k] == printed[k];
  }

  // ---------- What the slots hold ----------

  /** Slot k holds the written string of a claim that k is the slot of. */
  predicate Placed(cfg: Config, producers: seq<Producer>, claims: seq<Item>, item: Item, k: nat)
    requires cfg.buffers > 0
  {
    exists c :: 0 <= c < |claims| && claims[c] == item && Filled(producers, claims, c) && c % cfg.buffers == k
  }

  predicate SlotsPlaced(cfg: Config, s: State)
    requires cfg.buffers > 0
  {
    forall k :: 0 <= k < |s.slots| && s.slots[k].Text? ==> Placed(cfg, s.producers, s.claims, s.slots[k].item, k)
  }

  /** Claims stay, and what is filled stays filled. */
  lemma ProducerKeepsPlaced(cfg: Config, s: State, p: nat, item: Item, k: nat)
    requires Inv(cfg, s) && Enabled(cfg, s, ProducerStep(p)) && InBounds(s, ProducerStep(p))
    requires Placed(cfg, s.producers, s.claims, item, k)
    ensures var t := StepProducer(cfg, s, p); Placed(cfg, t.producers, t.claims, item, k)
  {
    var t := StepProducer(cfg, s, p);
    var c :| 0 <= c < |s.claims| && s.claims[c] == item && Filled(s.producers, s.claims, c) && c % cfg.buffers == k;
    FilledAfterProducer(cfg, s, p, c);
    assert s.claims <= t.claims;
    hide Inv, Filled;
    assert t.claims[c] == item;
  }

  lemma FillIsPlaced(cfg: Config, s: State, p: nat)
    requires Inv(cfg, s) && Guarded(cfg)
    requires Enabled(cfg, s, ProducerStep(p)) && InBounds(s, ProducerStep(p)) && s.producers[p].pc == Fill
    ensures
      var me, t := s.producers[p], StepProducer(cfg, s, p);
      t.slots == s.slots[me.j := Text(Item(p, me.count + 1))] &&
      Placed(cfg, t.producers, t.claims, Item(p, me.count + 1), me.j)
  {
    var me, t := s.producers[p], StepProducer(cfg, s, p);
    FilledAfterProducer(cfg, s, p, me.claim);
    assert PlaceOk(cfg, me, |s.claims|, s.produceIndex) && ProducerShape(cfg, me);
    assert me.claim < |s.claims| && s.claims[me.claim] == Item(p, me.count + 1);
    assert me.claim % cfg.buffers == me.j;
    hide Inv, Guarded, Filled, PlaceOk;
    assert t.claims[me.claim] == Item(p, me.count + 1);
  }

  lemma ProducerKeepsSlotsPlaced(cfg: Config, s: State, p: nat)
    requires Inv(cfg, s) && Guarded(cfg) && SlotsPlaced(cfg, s)
    requires Enabled(cfg, s, ProducerStep(p)) && InBounds(s, ProducerStep(p))
    ensures SlotsPlaced(cfg, StepProducer(cfg, s, p))
  {
    var me, t := s.producers[p], StepProducer(cfg, s, p);
    assert cfg.buffers > 0 && (me.pc != Fill ==> t.slots == s.slots);
    if me.pc == Fill {
      FillIsPlaced(cfg, s, p);
    }
    hide Inv, Placed, Guarded, Enabled, InBounds, StepProducer;
    forall k | 0 <= k < |t.slots| && t.slots[k].Text? ensures Placed(cfg, t.producers, t.claims, t.slots[k].item, k) {
      if !(me.pc == Fill && k == me.j) {
        ProducerKeepsPlaced(cfg, s, p, s.slots[k].item, k);
      }
    }
  }

  // ---------- The first print that was not ready ----------

  /** It shows a blank slot, or the string printed one or more laps before. */
  lemma UnreadyPrintSpoils(cfg: Config, s: State)
    requires Inv(cfg, s) && Guarded(cfg) && Spaced(cfg) && SlotsPlaced(cfg, s) && AllReady(s.ready)
    requires s.spooler == Print && InBounds(s, SpoolerStep) && !Filled(s.producers, s.claims, |s.printed|)
    ensures Spoiled(s.printed + [s.slots[s.printIndex]])
  {
    var n, slot := |s.printed|, s.slots[s.printIndex];
    var printed := s.printed + [slot];
    Window(cfg, s);
    assert Fifo(s.claims, s.printed) && s.printIndex == n % cfg.buffers && |s.claims| <= n + cfg.buffers;
    hide Inv, Guarded, Spaced, AllReady, Filled;
    if slot == Blank {
      assert printed[n] == Blank;
    } else {
      assert Placed(cfg, s.producers, s.claims, slot.item, s.printIndex);
      var c :| 0 <= c < |s.claims| && s.claims[c] == slot.item && Filled(s.producers, s.claims, c)
        && c % cfg.buffers == s.printIndex;
      if c > n {
        ModDistinct(n, c, cfg.buffers);
      }
      assert c < n && printed[c] == Text(s.claims[c]) == printed[n];
    }
  }

  /** Written slots hold their own claims' strings, and a print that was not ready shows. */
  predicate Honest(cfg: Config, s: State)
    requires cfg.buffers > 0
  {
    SlotsPlaced(cfg, s) && (AllReady(s.ready) || Spoiled(s.printed))
  }

  lemma PrintKeepsHonest(cfg: Config, s: State)
    requires Inv(cfg, s) && Guarded(cfg) && Spaced(cfg) && Honest(cfg, s)
    requires s.spooler == Print && s.main != Exited && InBounds(s, SpoolerStep)
    ensures Honest(cfg, StepSpooler(cfg, s))
  {
    var t := StepSpooler(cfg, s);
    ReadyGivesFifo(cfg, s);
    hide Inv, Guarded, Spaced, AllReady, Filled, Placed, Spoiled;
    if Spoiled(s.printed) {
      SpoiledStays(s.printed, s.slots[s.printIndex]);
    } else if !Filled(s.producers, s.claims, |s.printed|) {
      UnreadyPrintSpoils(cfg, s);
    }
  }

  lemma ProducerKeepsHonest(cfg: Config, s: State, p: nat)
    requires Inv(cfg, s) && Guarded(cfg) && Honest(cfg, s)
    requires Enabled(cfg, s, ProducerStep(p)) && InBounds(s, ProducerStep(p))
    ensures Honest(cfg, StepProducer(cfg, s, p))
  {
    var t := StepProducer(cfg, s, p);
    assert t.printed == s.printed && t.ready == s.ready && cfg.buffers > 0;
    hide Inv, Guarded, AllReady, Spoiled, SlotsPlaced, Enabled, InBounds, StepProducer;
    ProducerKeepsSlotsPlaced(cfg, s, p);
  }

  /** Only sprintf, printf and new claims matter. */
  lemma OthersKeepHonest(cfg: Config, s: State, a: Action)
    requires cfg.buffers > 0 && Honest(cfg, s) && Enabled(cfg, s, a) && InBounds(s, a)
    requires a == MainStep || (a == SpoolerStep && s.spooler != Print)
    ensures Honest(cfg, Step(cfg, s, a))
  {
    hide AllReady, Filled, Placed, Spoiled;
  }

  lemma TryKeepsHonest(cfg: Config, s: State, a: Action)
    requires Inv(cfg, s) && Guarded(cfg) && Spaced(cfg) && Honest(cfg, s)
    ensures Honest(cfg, Try(cfg, s, a))
  {
    assert cfg.buffers > 0;
    hide Inv, Guarded, Spaced, Honest, StepProducer, StepSpooler, StepMain;
    if Enabled(cfg, s, a) && InBounds(s, a) {
      if a.ProducerStep? {
        ProducerKeepsHonest(cfg, s, a.p);
      } else if a == SpoolerStep && s.spooler == Print {
        PrintKeepsHonest(cfg, s);
      } else {
        OthersKeepHonest(cfg, s, a);
      }
    }
  }

  lemma {:induction false} ExecKeepsHonest(cfg: Config, s: State, schedule: seq<Action>)
    requires Inv(cfg, s) && Guarded(cfg) && Spaced(cfg) && Honest(cfg, s)
    ensures Honest(cfg, Exec(cfg, s, schedule))
    decreases |schedule|
  {
    assert cfg.buffers > 0;
    hide Inv, Guarded, Spaced, Honest, Try;
    if schedule != [] {
      TryKeepsHonest(cfg, s, schedule[0]);
      TryKeepsInv(cfg, s, schedule[0]);
      ExecKeepsHonest(cfg, Try(cfg, s, schedule[0]), schedule[1..]);
    }
  }

  lemma ReachableIsHonest(cfg: Config, s: State)
    requires cfg.buffers > 0 && Guarded(cfg) && Spaced(cfg) && Reachable(cfg, s)
    ensures Honest(cfg, s)
  {
    InitialInv(cfg);
    assert Honest(cfg, Initial(cfg));
    hide Inv, Guarded, Spaced, Honest;
    var schedule :| s == Exec(cfg, Initial(cfg), schedule);
    ExecKeepsHonest(cfg, Initial(cfg), schedule);
  }

  lemma FifoIsNotSpoiled(cfg: Config, s: State)
    requires cfg.buffers > 0 && Reachable(cfg, s) && Fifo(s.claims, s.printed)
    ensures !Spoiled(s.printed)
  {
    hide Reachable;
    forall i, j | 0 <= i < j < |s.printed| ensures s.printed[i] != s.printed[j] {
      ClaimsDiffer(cfg, s, i, j);
    }
  }

  /**
   The prints follow the claims exactly if the output shows no blank slot and no string twice: a run
   out of order is seen from what it printed.
   */
  lemma FifoIsVisible(cfg: Config, s: State)
    requires cfg.buffers > 0 && Guarded(cfg) && Spaced(cfg) && Reachable(cfg, s)
    ensures Fifo(s.claims, s.printed) <==> !Spoiled(s.printed)
  {
    hide Reachable, Guarded, Spaced, Fifo, Spoiled, AllReady, SlotsPlaced;
    FifoExactlyWhenReady(cfg, s);
    ReachableIsHonest(cfg, s);
    if Fifo(s.claims, s.printed) {
      FifoIsNotSpoiled(cfg, s);
    }
  }

  // ---------- Complete output ----------

  lemma {:induction false} NumbersPrefix(printed: seq<Slot>, m: nat, p: nat)
    requires m <= |printed|
    ensures PrintedNumbers(printed[..m], p) <= PrintedNumbers(printed, p)
  {
    if m == |printed| {
      assert printed[..m] == printed;
    } else {
      NumbersPrefix(printed[..|printed| - 1], m, p);
      assert printed[..|printed| - 1][..m] == printed[..m];
    }
  }

  /** The place of the k-th print, a string of producer p, among p's numbers. */
  lemma NumberAt(printed: seq<Slot>, k: nat, p: nat)
    requires k < |printed| && printed[k].Text? && printed[k].item.producer == p
    ensures
      var n := |PrintedNumbers(printed[..k], p)|;
      n < |PrintedNumbers(printed[..k + 1], p)| <= |PrintedNumbers(printed, p)|
      && PrintedNumbers(printed, p)[n] == printed[k].item.number
  {
    assert printed[..k + 1][..k] == printed[..k];
    NumbersPrefix(printed, k + 1, p);
    assert PrintedNumbers(printed[..k + 1], p) == PrintedNumbers(printed[..k], p) + [printed[k].item.number];
  }

  /** A string printed twice makes its producer's numbers repeat. */
  lemma RepeatShows(printed: seq<Slot>, i: nat, j: nat)
    requires i < j < |printed| && printed[i] == printed[j] && printed[i].Text?
    ensures
      var numbers := PrintedNumbers(printed, printed[i].item.producer);
      exists a, b :: 0 <= a < b < |numbers| && numbers[a] == numbers[b]
  {
    var p := printed[i].item.producer;
    NumberAt(printed, i, p);
    NumberAt(printed, j, p);
    NumbersPrefix(printed[..j], i + 1, p);
    assert printed[..j][..i + 1] == printed[..i + 1];
    var a, b := |PrintedNumbers(printed[..i], p)|, |PrintedNumbers(printed[..j], p)|;
    assert a < b;
  }

  /** The strings printed of the first n producers. */
  function PrintedTotal(printed: seq<Slot>, n: nat): nat {
    if n == 0 then 0 else PrintedTotal(printed, n - 1) + |PrintedNumbers(printed, n - 1)|
  }

  lemma {:induction false} TotalSnoc(printed: seq<Slot>, slot: Slot, n: nat)
    ensures PrintedTotal(printed + [slot], n) ==
            PrintedTotal(printed, n) + if slot.Text? && slot.item.producer < n then 1 else 0
  {
    if n > 0 {
      TotalSnoc(printed, slot, n - 1);
      assert (printed + [slot])[..|printed|] == printed;
    }
  }

  function Blanks(printed: seq<Slot>): nat {
    if printed == [] then 0
    else Blanks(printed[..|printed| - 1]) + if printed[|printed| - 1] == Blank then 1 else 0
  }

  lemma {:induction false} NothingPrinted(n: nat)
    ensures PrintedTotal([], n) == 0
  {
    if n > 0 {
      NothingPrinted(n - 1);
    }
  }

  lemma {:induction false} TotalLeavesBlanks(printed: seq<Slot>, n: nat)
    ensures PrintedTotal(printed, n) + Blanks(printed) <= |printed|
    ensures Blanks(printed) == 0 ==> forall k :: 0 <= k < |printed| ==> printed[k] != Blank
  {
    if printed == [] {
      NothingPrinted(n);
    } else {
      var front, last := printed[..|printed| - 1], printed[|printed| - 1];
      TotalLeavesBlanks(front, n);
      assert printed == front + [last];
      TotalSnoc(front, last, n);
      assert Blanks(printed) == 0 ==> forall k :: 0 <= k < |front| ==> printed[k] == front[k] != Blank;
    }
  }

  lemma {:induction false} FullTotal(printed: seq<Slot>, n: nat, m: nat)
    requires forall p :: 0 <= p < n ==> |PrintedNumbers(printed, p)| == m
    ensures PrintedTotal(printed, n) == n * m
  {
    if n > 0 {
      FullTotal(printed, n - 1, m);
      assert n * m == (n - 1) * m + m;
    }
  }

  /** The output is each producer's full sequence, interleaved. */
  predicate Complete(cfg: Config, printed: seq<Slot>) {
    forall p :: 0 <= p < cfg.producers ==> PrintedNumbers(printed, p) == UpTo(cfg.strings)
  }

  /** As many prints as strings, each producer's in full, leave no room for a blank or a repeat. */
  lemma CompleteIsNotSpoiled(cfg: Config, s: State)
    requires SlotsOk(s.producers, s.printed) && |s.producers| == cfg.producers
    requires Complete(cfg, s.printed) && |s.printed| == cfg.producers * cfg.strings
    ensures !Spoiled(s.printed)
  {
    hide PrintedNumbers, PrintedTotal, Blanks;
    FullTotal(s.printed, cfg.producers, cfg.strings);
    TotalLeavesBlanks(s.printed, cfg.producers);
    if i, j :| 0 <= i < j < |s.printed| && s.printed[i] == s.printed[j] {
      RepeatShows(s.printed, i, j);
      assert false;
    }
  }

  /**
   Past the last printf, and without leftover signals, the output is every producer's full sequence
   exactly if the run was in order, that is if the output shows no blank slot and no string twice.
   */
  lemma CompleteExactlyWhenFifo(cfg: Config, s: State)
    requires cfg.buffers > 0 && Sound(cfg) && Reachable(cfg, s) && !s.main.Joining? && s.spooler != Print
    ensures Complete(cfg, s.printed) <==> Fifo(s.claims, s.printed)
    ensures Complete(cfg, s.printed) <==> !Spoiled(s.printed)
  {
    Shutdown(cfg, s);
    FifoIsVisible(cfg, s);
    ReachableInv(cfg, s);
    hide Reachable, CountsInv, FifoInv, IndexOk, Guarded, Spaced, Fifo, Spoiled, PrintedNumbers, UpTo, SlotsOk;
    assert |s.producers| == cfg.producers by { ProducerTotal(cfg, s); }
    if Complete(cfg, s.printed) {
      CompleteIsNotSpoiled(cfg, s);
    }
    forall p | Fifo(s.claims, s.printed) && 0 <= p < cfg.producers
      ensures PrintedNumbers(s.printed, p) == UpTo(cfg.strings)
    {
      CompleteOutput(cfg, s, p);
    }
  }

  lemma ProducerTotal(cfg: Config, s: State)
    requires Inv(cfg, s)
    ensures |s.producers| == cfg.producers
  {
  }
}
