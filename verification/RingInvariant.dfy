/** Every step of every thread keeps the invariant; runs are defined over arbitrary schedules. */
module RingInvariant {
  import opened Sums
  import opened RingModel

  lemma ModInRange(n: nat, m: nat)
    requires m > 0
    ensures 0 <= n % m < m
  {
  }

  /** Incrementing and wrapping is counting modulo the number of buffers. */
  lemma ModSuccessor(n: nat, m: nat)
    requires m > 0
    ensures (n + 1) % m == if n % m + 1 == m then 0 else n % m + 1
  {
    var q, r := n / m, n % m;
    assert n == q * m + r;
    if r + 1 == m {
      assert n + 1 == (q + 1) * m;
      ModUnique(n + 1, m, q + 1, 0);
    } else {
      ModUnique(n + 1, m, q, r + 1);
    }
  }

  lemma ModUnique(n: nat, m: nat, q: nat, r: nat)
    requires m > 0 && r < m && n == q * m + r
    ensures n % m == r
  {
    var d := n / m - q;
    assert d * m == r - n % m;
    MultipleIsFar(d, m);
  }

  lemma MultipleIsFar(k: int, m: nat)
    ensures k >= 1 ==> k * m >= m
    ensures k <= -1 ==> k * m + m <= 0
  {
    if k >= 1 {
      assert (k - 1) * m >= 0;
    } else if k <= -1 {
      assert (-k - 1) * m >= 0;
    }
  }

  /** Two numbers less than a lap apart fall into different slots. */
  lemma ModDistinct(c: nat, d: nat, m: nat)
    requires m > 0 && c < d < c + m
    ensures c % m != d % m
  {
    var k := d / m - c / m;
    assert d - c == k * m + d % m - c % m;
    MultipleIsFar(k, m);
  }

  /** Within one lap from lo, and not a lap apart. */
  lemma ModApart(lo: nat, c: nat, d: nat, m: nat)
    requires m > 0 && lo <= d < lo + m && lo <= c + m && c < lo + m && c != d && c + m != d
    ensures c % m != d % m
  {
    if d < c {
      ModDistinct(d, c, m);
    } else if d < c + m {
      ModDistinct(c, d, m);
    } else {
      ModDistinct(c + m, d, m);
      ModSameAfterLap(c, m);
    }
  }

  lemma ModSameAfterLap(c: nat, m: nat)
    requires m > 0
    ensures (c + m) % m == c % m
  {
    assert c == c / m * m + c % m;
    assert (c / m + 1) * m == c / m * m + m;
    ModUnique(c + m, m, c / m + 1, c % m);
  }

  // ---------- The initial state ----------

  lemma InitialInv(cfg: Config)
    requires cfg.buffers > 0
    ensures Inv(cfg, Initial(cfg))
  {
    var s := Initial(cfg);
    SumConstant(s.producers, SectionWeight, 0);
    SumConstant(s.producers, TokenWeight, 0);
    SumConstant(s.producers, PendingWeight, 0);
    SumConstant(s.producers, PostedWeight, 0);
  }

  // ---------- Counting ----------

  /** The mutex keeps its opening value exactly while the section is empty. */
  lemma MutexCounts(cfg: Config, producers: seq<Producer>, mutex: nat)
    requires MutexOk(cfg, producers, mutex)
    ensures mutex <= cfg.opening.mutex
    ensures mutex == cfg.opening.mutex <==> forall p :: 0 <= p < |producers| ==> !InSection(producers[p])
  {
    SumNonNegative(producers, SectionWeight);
    if forall p :: 0 <= p < |producers| ==> !InSection(producers[p]) {
      SumConstant(producers, SectionWeight, 0);
    } else {
      var p :| 0 <= p < |producers| && InSection(producers[p]);
      SumAtLeast(producers, SectionWeight, p);
    }
  }

  /**
   Mutual exclusion, from whichever part of the opening guarantees it; and the mutex has its opening
   value exactly while nobody is in the section.
   */
  lemma MutualExclusion(cfg: Config, s: State)
    requires CountsInv(cfg, s) && Guarded(cfg)
    ensures Exclusive(s.producers)
    ensures s.mutex == cfg.opening.mutex <==> forall p :: 0 <= p < |s.producers| ==> !InSection(s.producers[p])
  {
    MutexCounts(cfg, s.producers, s.mutex);
    hide MainOk, PrintIndexOk, Sum;
    SumNonNegative(s.producers, SectionWeight);
    forall p, q | 0 <= p < q < |s.producers| && InSection(s.producers[p]) ensures !InSection(s.producers[q]) {
      SumAtLeastTwo(s.producers, SectionWeight, p, q);
      SumMonotone(s.producers, SectionWeight, TokenWeight);
      assert ProducerShape(cfg, s.producers[p]);
    }
  }

  function ClaimedWeight(m: Producer): int { Claimed(m) }

  lemma ClaimsTotal(cfg: Config, s: State)
    requires Shape(cfg, s) && TokensOk(cfg, s)
    ensures |s.claims| == Sum(s.producers, ClaimedWeight) <= cfg.producers * cfg.strings
  {
    SumAdd(s.producers, PostedWeight, PendingWeight, ClaimedWeight);
    SumTight(s.producers, ClaimedWeight, cfg.strings);
  }

  /**
   The counting facts behind every position argument: printed <= posted + left over, posted <=
   claimed, and claims stay within the opening's buffers of the releases.
   */
  lemma Window(cfg: Config, s: State)
    requires CountsInv(cfg, s)
    ensures |s.posts| <= |s.claims| <= cfg.producers * cfg.strings
    ensures 0 <= Released(s)
    ensures |s.printed| + (if s.spooler == Print then 1 else 0) <= |s.posts| + cfg.opening.spoolSignal
    ensures |s.claims| <= Released(s) + cfg.opening.bufferCount
    ensures Spaced(cfg) ==> |s.claims| <= Released(s) + cfg.buffers
  {
    ClaimsTotal(cfg, s);
    hide MainOk, MutexOk, Sum;
    SumNonNegative(s.producers, PendingWeight);
    SumMonotone(s.producers, PendingWeight, TokenWeight);
  }

  // ---------- Preservation, one conjunct at a time ----------

  lemma InvGivesBounds(cfg: Config, s: State, a: Action)
    requires Inv(cfg, s) && Enabled(cfg, s, a)
    ensures Guarded(cfg) ==> InBounds(s, a)
    ensures !a.ProducerStep? ==> InBounds(s, a)
  {
    hide ClaimsInv, FifoInv, TokensOk, MutexOk, MainOk;
    ModInRange(|s.printed|, cfg.buffers);
    match a
    case ProducerStep(p) => ModInRange(s.producers[p].claim, cfg.buffers);
    case _ =>
  }

  lemma ProducerKeepsShape(cfg: Config, s: State, p: nat)
    requires Shape(cfg, s) && MainOk(s.producers, s.main, s.spoolSignal)
    requires Enabled(cfg, s, ProducerStep(p)) && InBounds(s, ProducerStep(p))
    ensures var t := StepProducer(cfg, s, p); Shape(cfg, t) && MainOk(t.producers, t.main, t.spoolSignal)
  {
  }

  lemma ProducerKeepsTokens(cfg: Config, s: State, p: nat)
    requires p < |s.producers| && MutexOk(cfg, s.producers, s.mutex) && TokensOk(cfg, s)
    requires Enabled(cfg, s, ProducerStep(p)) && InBounds(s, ProducerStep(p))
    ensures var t := StepProducer(cfg, s, p); MutexOk(cfg, t.producers, t.mutex) && TokensOk(cfg, t)
  {
    hide Sum;
    var x := StepProducer(cfg, s, p).producers[p];
    SumUpdate(s.producers, SectionWeight, p, x);
    SumUpdate(s.producers, TokenWeight, p, x);
    SumUpdate(s.producers, PendingWeight, p, x);
    SumUpdate(s.producers, PostedWeight, p, x);
  }

  lemma ProducerKeepsCounts(cfg: Config, s: State, p: nat)
    requires CountsInv(cfg, s) && Enabled(cfg, s, ProducerStep(p)) && InBounds(s, ProducerStep(p))
    ensures CountsInv(cfg, StepProducer(cfg, s, p))
  {
    hide Shape, MainOk, MutexOk, TokensOk, PrintIndexOk;
    ProducerKeepsShape(cfg, s, p);
    ProducerKeepsTokens(cfg, s, p);
  }

  /** Outside the section a producer does not depend on the index. */
  lemma PlaceOutside(cfg: Config, m: Producer, claims: nat, index: nat, newClaims: nat, newIndex: nat)
    requires cfg.buffers > 0 && !InSection(m) && PlaceOk(cfg, m, claims, index)
    ensures PlaceOk(cfg, m, newClaims, newIndex)
  {
  }

  lemma StepKeepsPlace(cfg: Config, s: State, p: nat)
    requires cfg.buffers > 0 && p < |s.producers| && IndexOk(cfg, s.producers, |s.claims|, s.produceIndex)
    requires InSection(s.producers[p]) ==> forall q :: 0 <= q < |s.producers| && q != p ==> !InSection(s.producers[q])
    requires Enabled(cfg, s, ProducerStep(p)) && InBounds(s, ProducerStep(p))
    ensures var t := StepProducer(cfg, s, p); PlaceOk(cfg, t.producers[p], |t.claims|, t.produceIndex)
    ensures s.producers[p].pc == WrapIndex ==>
              var t := StepProducer(cfg, s, p); t.produceIndex == |t.claims| % cfg.buffers
  {
    var me := s.producers[p];
    assert PlaceOk(cfg, me, |s.claims|, s.produceIndex);
    if me.pc == WrapIndex {
      ModSuccessor(|s.claims| - 1, cfg.buffers);
    }
  }

  lemma SectionKeepsIndex(cfg: Config, s: State, p: nat)
    requires cfg.buffers > 0 && p < |s.producers| && InSection(s.producers[p])
    requires forall q :: 0 <= q < |s.producers| && q != p ==> !InSection(s.producers[q])
    requires IndexOk(cfg, s.producers, |s.claims|, s.produceIndex)
    requires Enabled(cfg, s, ProducerStep(p)) && InBounds(s, ProducerStep(p))
    ensures var t := StepProducer(cfg, s, p); IndexOk(cfg, t.producers, |t.claims|, t.produceIndex)
  {
    var me, t := s.producers[p], StepProducer(cfg, s, p);
    assert t.producers == s.producers[p := t.producers[p]];
    StepKeepsPlace(cfg, s, p);
    if me.pc == PutMutex {
      assert forall q :: 0 <= q < |s.producers| ==> !Moving(s.producers[q]);
    } else if me.pc != WrapIndex {
      assert Moving(t.producers[p]);
    }
    hide PlaceOk, StepProducer;
    forall q | 0 <= q < |t.producers| ensures PlaceOk(cfg, t.producers[q], |t.claims|, t.produceIndex) {
      if q != p {
        PlaceOutside(cfg, s.producers[q], |s.claims|, s.produceIndex, |t.claims|, t.produceIndex);
      }
    }
  }

  lemma OutsideKeepsIndex(cfg: Config, s: State, p: nat)
    requires cfg.buffers > 0 && p < |s.producers| && !InSection(s.producers[p])
    requires IndexOk(cfg, s.producers, |s.claims|, s.produceIndex)
    requires Enabled(cfg, s, ProducerStep(p)) && InBounds(s, ProducerStep(p))
    ensures var t := StepProducer(cfg, s, p); IndexOk(cfg, t.producers, |t.claims|, t.produceIndex)
  {
    var t := StepProducer(cfg, s, p);
    assert t.producers == s.producers[p := t.producers[p]] && t.claims == s.claims && t.produceIndex == s.produceIndex;
    assert Moving(t.producers[p]) == Moving(s.producers[p]);
    StepKeepsPlace(cfg, s, p);
    hide PlaceOk, StepProducer, Moving;
    if forall q :: 0 <= q < |t.producers| ==> !Moving(t.producers[q]) {
      assert forall q :: 0 <= q < |s.producers| && q != p ==> t.producers[q] == s.producers[q];
    }
  }

  lemma ProducerKeepsClaims(cfg: Config, s: State, p: nat)
    requires Shape(cfg, s) && ClaimsOk(s.producers, s.claims, s.posts)
    requires Enabled(cfg, s, ProducerStep(p)) && InBounds(s, ProducerStep(p))
    ensures var t := StepProducer(cfg, s, p); ClaimsOk(t.producers, t.claims, t.posts)
  {
    var me, t := s.producers[p], StepProducer(cfg, s, p);
    assert forall q :: 0 <= q < |t.producers| && q != p ==> t.producers[q] == s.producers[q];
    assert me.pc != ReadIndex ==> t.claims == s.claims;
    assert me.pc != Signal ==> t.posts == s.posts;
    forall c | c in t.posts ensures Filled(t.producers, t.claims, c) {
      assert c in s.posts || c == me.claim;
    }
  }

  lemma PendingClaimsDiffer(s: State, p: nat, q: nat)
    requires ClaimsOk(s.producers, s.claims, s.posts)
    requires p < |s.producers| && q < |s.producers| && p != q && Pending(s.producers[p]) && Pending(s.producers[q])
    ensures s.producers[p].claim != s.producers[q].claim
  {
    assert s.claims[s.producers[p].claim].producer == p;
  }

  lemma ClaimKeepsNumbers(producers: seq<Producer>, claims: seq<Item>, p: nat, x: Producer)
    requires NumbersOk(producers, claims) && p < |producers| && Claimed(x) == Claimed(producers[p]) + 1
    ensures NumbersOk(producers[p := x], claims + [Item(p, Claimed(x))])
  {
    hide Claimed;
  }

  lemma OthersKeepNumbers(producers: seq<Producer>, claims: seq<Item>, p: nat, x: Producer)
    requires NumbersOk(producers, claims) && p < |producers| && Claimed(x) == Claimed(producers[p])
    ensures NumbersOk(producers[p := x], claims)
  {
    hide Claimed;
  }

  lemma ProducerKeepsNumbers(cfg: Config, s: State, p: nat)
    requires Shape(cfg, s) && NumbersOk(s.producers, s.claims)
    requires Enabled(cfg, s, ProducerStep(p)) && InBounds(s, ProducerStep(p))
    ensures var t := StepProducer(cfg, s, p); NumbersOk(t.producers, t.claims)
  {
    hide NumbersOk;
    var x := StepProducer(cfg, s, p).producers[p];
    if s.producers[p].pc == ReadIndex {
      ClaimKeepsNumbers(s.producers, s.claims, p, x);
    } else {
      OthersKeepNumbers(s.producers, s.claims, p, x);
    }
  }

  lemma ProducerKeepsSlots(cfg: Config, s: State, p: nat)
    requires SlotsOk(s.producers, s.slots) && SlotsOk(s.producers, s.printed) && p < |s.producers|
    requires Enabled(cfg, s, ProducerStep(p)) && InBounds(s, ProducerStep(p))
    ensures var t := StepProducer(cfg, s, p); SlotsOk(t.producers, t.slots) && SlotsOk(t.producers, t.printed)
  {
    var me, t := s.producers[p], StepProducer(cfg, s, p);
    assert forall q :: 0 <= q < |t.producers| ==> t.producers[q].count >= s.producers[q].count;
    assert t.printed == s.printed;
    assert me.pc != Fill ==> t.slots == s.slots;
  }

  lemma ProducerKeepsOrder(cfg: Config, s: State, p: nat)
    requires Shape(cfg, s) && OrderOk(s.producers, s.claims)
    requires Enabled(cfg, s, ProducerStep(p)) && InBounds(s, ProducerStep(p))
    ensures var t := StepProducer(cfg, s, p); OrderOk(t.producers, t.claims)
  {
    var t := StepProducer(cfg, s, p);
    if s.producers[p].pc == ReadIndex {
      assert t.claims[..|s.claims|] == s.claims;
    }
  }

  lemma ProducerKeepsClaimsInv(cfg: Config, s: State, p: nat)
    requires Shape(cfg, s) && ClaimsInv(s) && Enabled(cfg, s, ProducerStep(p)) && InBounds(s, ProducerStep(p))
    ensures ClaimsInv(StepProducer(cfg, s, p))
  {
    hide ClaimsOk, NumbersOk, SlotsOk, OrderOk;
    assert p < |s.producers|;
    ProducerKeepsClaims(cfg, s, p);
    ProducerKeepsNumbers(cfg, s, p);
    ProducerKeepsSlots(cfg, s, p);
    ProducerKeepsOrder(cfg, s, p);
  }

  /** Claims are distinct, so a claim is filled by its own producer's sprintf and no other step. */
  lemma FilledAfterProducer(cfg: Config, s: State, p: nat, c: nat)
    requires Shape(cfg, s) && ClaimsOk(s.producers, s.claims, s.posts) && NumbersOk(s.producers, s.claims)
    requires Enabled(cfg, s, ProducerStep(p)) && InBounds(s, ProducerStep(p))
    ensures var t := StepProducer(cfg, s, p);
      Filled(t.producers, t.claims, c) <==>
        Filled(s.producers, s.claims, c) || (s.producers[p].pc == Fill && c == s.producers[p].claim)
  {
    var me := s.producers[p];
    if me.pc == Fill && c < |s.claims| && s.claims[c] == Item(p, me.i + 1) {
      assert s.claims[me.claim] == s.claims[c];
      assert !(c < me.claim) && !(me.claim < c);
    }
  }

  lemma ProducerKeepsReady(cfg: Config, s: State, p: nat)
    requires Shape(cfg, s) && ClaimsInv(s) && ReadyOk(s.producers, s.claims, s.printed, s.ready)
    requires Enabled(cfg, s, ProducerStep(p)) && InBounds(s, ProducerStep(p))
    ensures var t := StepProducer(cfg, s, p); ReadyOk(t.producers, t.claims, t.printed, t.ready)
  {
    var me, t := s.producers[p], StepProducer(cfg, s, p);
    assert s.claims <= t.claims && t.printed == s.printed && t.ready == s.ready;
    forall k | 0 <= k < |t.ready| && t.ready[k] ensures Filled(t.producers, t.claims, k) {
      FilledAfterProducer(cfg, s, p, k);
    }
    hide ClaimsOk, NumbersOk, OrderOk;
    forall k | 0 <= k < |t.ready| && k < |t.claims| && !t.ready[k] ensures t.printed[k] != Text(t.claims[k]) {
      if k == |s.claims| {
        assert t.claims[k] == Item(p, me.count + 1);
      } else {
        assert t.claims[k] == s.claims[k];
      }
    }
  }

  /** While every print was ready, a sprintf never overwrites a written string still to be printed. */
  lemma FillSparesOthers(cfg: Config, s: State, c: nat, d: nat)
    requires CountsInv(cfg, s) && Spaced(cfg)
    requires ReadyOk(s.producers, s.claims, s.printed, s.ready) && AllReady(s.ready)
    requires c < |s.claims| && d < |s.claims| && c != d && c + cfg.buffers != d
    requires !Filled(s.producers, s.claims, d) && !Filled(s.producers, s.claims, c + cfg.buffers)
    ensures c % cfg.buffers != d % cfg.buffers
  {
    Window(cfg, s);
    var lo := |s.printed|;
    assert lo <= d < lo + cfg.buffers && lo <= c + cfg.buffers && c < lo + cfg.buffers by {
      hide Shape, MainOk, MutexOk, TokensOk, PrintIndexOk, Spaced;
    }
    ModApart(lo, c, d, cfg.buffers);
  }

  /** The premises under which slots keep what was written. */
  predicate Undisturbed(cfg: Config, s: State) {
    && CountsInv(cfg, s) && ClaimsInv(s) && Guarded(cfg) && Spaced(cfg)
    && IndexOk(cfg, s.producers, |s.claims|, s.produceIndex)
    && ReadyOk(s.producers, s.claims, s.printed, s.ready) && AllReady(s.ready)
    && Intact(cfg, s.producers, s.claims, s.slots)
  }

  lemma IntactAfterProducer(cfg: Config, s: State, p: nat, c: nat)
    requires Undisturbed(cfg, s) && Enabled(cfg, s, ProducerStep(p)) && InBounds(s, ProducerStep(p))
    ensures
      var t := StepProducer(cfg, s, p);
      Filled(t.producers, t.claims, c) && !Filled(t.producers, t.claims, c + cfg.buffers) ==>
        c % cfg.buffers < |t.slots| && t.slots[c % cfg.buffers] == Text(t.claims[c])
  {
    hide MutexOk, TokensOk, MainOk, PrintIndexOk, Spaced, OrderOk, SlotsOk;
    var me, t := s.producers[p], StepProducer(cfg, s, p);
    FilledAfterProducer(cfg, s, p, c);
    FilledAfterProducer(cfg, s, p, c + cfg.buffers);
    if me.pc == Fill {
      assert !Filled(s.producers, s.claims, me.claim) && me.claim + cfg.buffers != me.claim;
      if c != me.claim && c + cfg.buffers != me.claim && c < |s.claims|
        && !Filled(s.producers, s.claims, c + cfg.buffers) {
        FillSparesOthers(cfg, s, c, me.claim);
      }
    }
    hide ReadyOk, AllReady, NumbersOk;
  }

  lemma ProducerKeepsIntact(cfg: Config, s: State, p: nat)
    requires Undisturbed(cfg, s) && Enabled(cfg, s, ProducerStep(p)) && InBounds(s, ProducerStep(p))
    ensures var t := StepProducer(cfg, s, p); Intact(cfg, t.producers, t.claims, t.slots)
  {
    hide Undisturbed, Enabled, InBounds, StepProducer, Filled;
    forall c: nat { IntactAfterProducer(cfg, s, p, c); }
  }

  /** If every print was ready, one more print is ready exactly if its claim is filled, and shows it. */
  lemma ReadyGivesFifo(cfg: Config, s: State)
    requires CountsInv(cfg, s) && SlotsOk(s.producers, s.slots) && ReadyOk(s.producers, s.claims, s.printed, s.ready)
    requires s.spooler == Print && s.main != Exited && InBounds(s, SpoolerStep)
    ensures var t := StepSpooler(cfg, s); ReadyOk(t.producers, t.claims, t.printed, t.ready)
    ensures AllReady(StepSpooler(cfg, s).ready) <==> AllReady(s.ready) && Filled(s.producers, s.claims, |s.printed|)
  {
    hide MutexOk, TokensOk, MainOk;
    var r, t := |s.printed|, StepSpooler(cfg, s);
    assert forall k :: 0 <= k < r ==> t.ready[k] == s.ready[k] && t.printed[k] == s.printed[k];
    assert t.ready[r] <==> Filled(s.producers, s.claims, r);
  }

  lemma PrintKeepsFifo(cfg: Config, s: State)
    requires CountsInv(cfg, s) && Spaced(cfg) && Intact(cfg, s.producers, s.claims, s.slots)
    requires Fifo(s.claims, s.printed) && Filled(s.producers, s.claims, |s.printed|)
    requires s.spooler == Print && s.main != Exited && InBounds(s, SpoolerStep)
    ensures Fifo(s.claims, StepSpooler(cfg, s).printed)
  {
    Window(cfg, s);
    hide MutexOk, TokensOk, MainOk, Spaced;
    var r := |s.printed|;
    assert !Filled(s.producers, s.claims, r + cfg.buffers);
    assert StepSpooler(cfg, s).printed == s.printed + [s.slots[r % cfg.buffers]];
  }

  /** With no signal left over and posts in order, the string about to be printed is written. */
  lemma InOrderIsReady(cfg: Config, s: State)
    requires CountsInv(cfg, s) && ClaimsOk(s.producers, s.claims, s.posts)
    requires cfg.opening.spoolSignal == 0 && InOrder(s.posts) && s.spooler == Print
    ensures Filled(s.producers, s.claims, |s.printed|)
  {
    hide Sum, Filled, Shape, MainOk, MutexOk, PrintIndexOk;
    assert s.posts[|s.printed|] in s.posts;
  }

  lemma PrintKeepsFifoInv(cfg: Config, s: State)
    requires Inv(cfg, s) && s.spooler == Print && s.main != Exited && InBounds(s, SpoolerStep)
    ensures FifoInv(cfg, StepSpooler(cfg, s))
  {
    hide CountsInv, ClaimsOk, NumbersOk, SlotsOk, OrderOk, IndexOk, ReadyOk, AllReady, Fifo, Intact, InOrder,
      Guarded, Spaced, Filled;
    ReadyGivesFifo(cfg, s);
    if cfg.opening.spoolSignal == 0 && InOrder(s.posts) {
      InOrderIsReady(cfg, s);
    }
    if Guarded(cfg) && Spaced(cfg) && AllReady(StepSpooler(cfg, s).ready) {
      PrintKeepsFifo(cfg, s);
    }
  }

  lemma SpoolerKeepsCounts(cfg: Config, s: State)
    requires CountsInv(cfg, s) && Enabled(cfg, s, SpoolerStep) && InBounds(s, SpoolerStep)
    ensures CountsInv(cfg, StepSpooler(cfg, s))
  {
    hide Sum;
    if |s.printed| > 0 {
      ModSuccessor(|s.printed| - 1, cfg.buffers);
    }
  }

  lemma SpoolerKeepsClaims(cfg: Config, s: State)
    requires ClaimsInv(s) && Enabled(cfg, s, SpoolerStep) && InBounds(s, SpoolerStep)
    ensures ClaimsInv(StepSpooler(cfg, s))
  {
    hide ClaimsOk, NumbersOk, OrderOk;
    var t := StepSpooler(cfg, s);
    assert t.printed == s.printed || t.printed == s.printed + [s.slots[s.printIndex]];
  }

  lemma SpoolerKeepsInv(cfg: Config, s: State)
    requires Inv(cfg, s) && Enabled(cfg, s, SpoolerStep) && InBounds(s, SpoolerStep)
    ensures Inv(cfg, StepSpooler(cfg, s))
  {
    hide ClaimsInv, IndexOk, ReadyOk, AllReady, Fifo, Intact, InOrder, Guarded, Spaced, MainOk, MutexOk, TokensOk,
      PrintIndexOk, Shape;
    SpoolerKeepsCounts(cfg, s);
    SpoolerKeepsClaims(cfg, s);
    if s.spooler == Print {
      PrintKeepsFifoInv(cfg, s);
    }
  }

  lemma MainKeepsInv(cfg: Config, s: State)
    requires Inv(cfg, s) && Enabled(cfg, s, MainStep)
    ensures Inv(cfg, StepMain(cfg, s))
  {
    hide MutexOk, PrintIndexOk, ClaimsOk, NumbersOk, OrderOk, SlotsOk, IndexOk, ReadyOk, InOrder, AllReady, Fifo,
      Intact, Guarded, Spaced, Sum;
  }

  lemma ProducerKeepsInOrder(cfg: Config, s: State, p: nat)
    requires p < |s.producers| && Enabled(cfg, s, ProducerStep(p)) && InBounds(s, ProducerStep(p))
    ensures InOrder(StepProducer(cfg, s, p).posts) ==> InOrder(s.posts)
  {
    var t := StepProducer(cfg, s, p);
    assert s.posts <= t.posts;
    if InOrder(t.posts) {
      assert forall k :: 0 <= k < |s.posts| ==> s.posts[k] == t.posts[k];
    }
  }

  lemma ProducerKeepsFifoInv(cfg: Config, s: State, p: nat)
    requires Inv(cfg, s) && Enabled(cfg, s, ProducerStep(p)) && InBounds(s, ProducerStep(p))
    ensures FifoInv(cfg, StepProducer(cfg, s, p))
  {
    assert Shape(cfg, s);
    hide CountsInv, ClaimsInv, IndexOk, ReadyOk, AllReady, InOrder, Intact, Guarded, Spaced;
    var t := StepProducer(cfg, s, p);
    ProducerKeepsReady(cfg, s, p);
    ProducerKeepsInOrder(cfg, s, p);
    assert s.claims <= t.claims && t.printed == s.printed && t.ready == s.ready;
    if Guarded(cfg) && Spaced(cfg) && AllReady(s.ready) {
      ProducerKeepsIntact(cfg, s, p);
    }
  }

  lemma ProducerKeepsInv(cfg: Config, s: State, p: nat)
    requires Inv(cfg, s) && Enabled(cfg, s, ProducerStep(p)) && InBounds(s, ProducerStep(p))
    ensures Inv(cfg, StepProducer(cfg, s, p))
  {
    ProducerKeepsFifoInv(cfg, s, p);
    assert Shape(cfg, s);
    hide CountsInv, ClaimsInv, IndexOk, FifoInv, Guarded;
    ProducerKeepsCounts(cfg, s, p);
    ProducerKeepsClaimsInv(cfg, s, p);
    if Guarded(cfg) {
      MutualExclusion(cfg, s);
      if InSection(s.producers[p]) {
        SectionKeepsIndex(cfg, s, p);
      } else {
        OutsideKeepsIndex(cfg, s, p);
      }
    }
  }

  /**
   Every statement of every thread keeps the invariant, from whatever opening; and it stays inside
   the slot array if two producers cannot meet in the index section.
   */
  lemma StepKeepsInv(cfg: Config, s: State, a: Action)
    requires Inv(cfg, s) && Enabled(cfg, s, a)
    ensures Guarded(cfg) ==> InBounds(s, a)
    ensures InBounds(s, a) ==> Inv(cfg, Step(cfg, s, a))
  {
    InvGivesBounds(cfg, s, a);
    hide Inv, Guarded;
    if InBounds(s, a) {
      match a
      case ProducerStep(p) => ProducerKeepsInv(cfg, s, p);
      case SpoolerStep => SpoolerKeepsInv(cfg, s);
      case MainStep => MainKeepsInv(cfg, s);
    }
  }

  // ---------- Runs ----------

  /**
   One scheduling decision: a blocked thread, when picked, does nothing. A thread that would write
   outside the slot array is stopped; StepKeepsInv says when this cannot happen.
   */
  function Try(cfg: Config, s: State, a: Action): State {
    if Enabled(cfg, s, a) && InBounds(s, a) then Step(cfg, s, a) else s
  }

  /** The state after an arbitrary schedule. */
  function Exec(cfg: Config, s: State, schedule: seq<Action>): State
    decreases |schedule|
  {
    if schedule == [] then s else Exec(cfg, Try(cfg, s, schedule[0]), schedule[1..])
  }

  lemma {:induction false} ExecKeepsInv(cfg: Config, s: State, schedule: seq<Action>)
    requires Inv(cfg, s)
    ensures Inv(cfg, Exec(cfg, s, schedule))
    decreases |schedule|
  {
    hide Inv;
    if schedule != [] {
      TryKeepsInv(cfg, s, schedule[0]);
      ExecKeepsInv(cfg, Try(cfg, s, schedule[0]), schedule[1..]);
    }
  }

  lemma TryKeepsInv(cfg: Config, s: State, a: Action)
    requires Inv(cfg, s)
    ensures Inv(cfg, Try(cfg, s, a))
  {
    hide Inv;
    if Enabled(cfg, s, a) {
      StepKeepsInv(cfg, s, a);
    }
  }

  lemma {:induction false} ExecConcat(cfg: Config, s: State, u: seq<Action>, v: seq<Action>)
    ensures Exec(cfg, s, u + v) == Exec(cfg, Exec(cfg, s, u), v)
    decreases |u|
  {
    hide Try;
    if u == [] {
      assert u + v == v;
    } else {
      assert (u + v)[1..] == u[1..] + v;
      ExecConcat(cfg, Try(cfg, s, u[0]), u[1..], v);
    }
  }

  lemma ExecSnoc(cfg: Config, s: State, u: seq<Action>, a: Action)
    ensures Exec(cfg, s, u + [a]) == Try(cfg, Exec(cfg, s, u), a)
  {
    hide Try;
    ExecConcat(cfg, s, u, [a]);
    assert Exec(cfg, Exec(cfg, s, u), [a]) == Exec(cfg, Try(cfg, Exec(cfg, s, u), a), []);
  }

  /** Some schedule leads from the opened semaphores to `s`. */
  ghost predicate Reachable(cfg: Config, s: State) {
    exists schedule :: s == Exec(cfg, Initial(cfg), schedule)
  }

  lemma InitialReachable(cfg: Config)
    ensures Reachable(cfg, Initial(cfg))
  {
    assert Exec(cfg, Initial(cfg), []) == Initial(cfg);
  }

  lemma ReachableInv(cfg: Config, s: State)
    requires cfg.buffers > 0 && Reachable(cfg, s)
    ensures Inv(cfg, s)
  {
    hide Inv;
    InitialInv(cfg);
    var schedule :| s == Exec(cfg, Initial(cfg), schedule);
    ExecKeepsInv(cfg, Initial(cfg), schedule);
  }

  lemma ReachableExec(cfg: Config, s: State, schedule: seq<Action>)
    requires Reachable(cfg, s)
    ensures Reachable(cfg, Exec(cfg, s, schedule))
  {
    var before :| s == Exec(cfg, Initial(cfg), before);
    ExecConcat(cfg, Initial(cfg), before, schedule);
  }

  /** One more executable statement. */
  lemma Next(cfg: Config, s: State, a: Action) returns (t: State)
    requires Reachable(cfg, s) && Enabled(cfg, s, a) && InBounds(s, a)
    ensures t == Step(cfg, s, a) && Reachable(cfg, t)
  {
    hide Reachable, Step, Enabled, InBounds;
    ReachableExec(cfg, s, [a]);
    t := Step(cfg, s, a);
    assert Exec(cfg, s, [a]) == Exec(cfg, Try(cfg, s, a), []);
  }
}
