/** Exactly when no thread can leave the slot array, although the wrap tests the index only for equality. */
module RingBounds {
  import opened Sums
  import opened RingModel
  import opened RingInvariant
  import opened RingBoundary

  /** Two producers cannot meet in the index section, or there is a slot for every string. */
  predicate Contained(cfg: Config) {
    Guarded(cfg) || cfg.producers * cfg.strings <= cfg.buffers
  }

  // ---------- A slot for every string ----------

  function BumpWeight(m: Producer): int { if m.pc.BumpIndex? then 1 else 0 }

  /** Wherever producers meet, the index never runs ahead of the claims. */
  predicate Behind(s: State) {
    && s.produceIndex + Sum(s.producers, BumpWeight) <= |s.claims|
    && (forall p :: 0 <= p < |s.producers| && Pending(s.producers[p]) ==> s.producers[p].j <= s.producers[p].claim)
  }

  lemma TryKeepsBehind(cfg: Config, s: State, a: Action)
    requires Behind(s)
    ensures Behind(Try(cfg, s, a))
  {
    hide Sum, Filled;
    if a.ProducerStep? && Enabled(cfg, s, a) && InBounds(s, a) {
      var t := StepProducer(cfg, s, a.p);
      SumUpdate(s.producers, BumpWeight, a.p, t.producers[a.p]);
      assert t.producers == s.producers[a.p := t.producers[a.p]];
      SumNonNegative(s.producers, BumpWeight);
      SumNonNegative(t.producers, BumpWeight);
    }
  }

  lemma {:induction false} ExecKeepsBehind(cfg: Config, s: State, schedule: seq<Action>)
    requires Behind(s)
    ensures Behind(Exec(cfg, s, schedule))
    decreases |schedule|
  {
    hide Behind, Try;
    if schedule != [] {
      TryKeepsBehind(cfg, s, schedule[0]);
      ExecKeepsBehind(cfg, Try(cfg, s, schedule[0]), schedule[1..]);
    }
  }

  lemma BehindStaysInBounds(cfg: Config, s: State, p: nat)
    requires Inv(cfg, s) && Behind(s) && cfg.producers * cfg.strings <= cfg.buffers
    requires Enabled(cfg, s, ProducerStep(p))
    ensures InBounds(s, ProducerStep(p))
  {
    Window(cfg, s);
    hide MainOk, MutexOk, TokensOk, PrintIndexOk, NumbersOk, OrderOk, SlotsOk, FifoInv, IndexOk, Guarded;
    assert Pending(s.producers[p]) ==> s.producers[p].claim < |s.claims|;
  }

  lemma StaysInBounds(cfg: Config, s: State, a: Action)
    requires cfg.buffers > 0 && Contained(cfg) && Reachable(cfg, s) && Enabled(cfg, s, a)
    ensures Inv(cfg, s) && InBounds(s, a)
  {
    ReachableInv(cfg, s);
    InvGivesBounds(cfg, s, a);
    hide Inv, Guarded, Enabled, InBounds;
    if a.ProducerStep? && cfg.producers * cfg.strings <= cfg.buffers {
      SumConstant(Initial(cfg).producers, BumpWeight, 0);
      var schedule :| s == Exec(cfg, Initial(cfg), schedule);
      ExecKeepsBehind(cfg, Initial(cfg), schedule);
      BehindStaysInBounds(cfg, s, a.p);
    }
  }

  // ---------- A run that leaves the array ----------

  /** Nobody is between two strings, and producers 0 and 1 have one left. */
  ghost predicate Quiet(cfg: Config, s: State)
    requires cfg.buffers > 0
  {
    && Reachable(cfg, s) && s.main == Joining(0) && s.spooler == GetString
    && s.mutex == cfg.opening.mutex && s.bufferCount >= 2 && s.produceIndex == |s.claims| % cfg.buffers
    && (forall p :: 0 <= p < |s.producers| ==> s.producers[p].pc in {GetBuffer, Finished})
    && |s.producers| >= 2 && s.producers[0].pc == GetBuffer && s.producers[1].pc == GetBuffer
  }

  /** If three strings are left, one can be produced that leaves producers 0 and 1 one each. */
  lemma QuietChoice(cfg: Config, s: State) returns (p: nat)
    requires cfg.buffers > 0 && Inv(cfg, s) && Quiet(cfg, s) && |s.claims| + 3 <= cfg.producers * cfg.strings
    ensures p < |s.producers| && s.producers[p].pc == GetBuffer && (p < 2 ==> s.producers[p].i + 1 < cfg.strings)
  {
    hide Reachable, ClaimsInv, FifoInv, IndexOk, MutexOk, MainOk, PrintIndexOk, Sum, Guarded;
    SumConstant(s.producers, PendingWeight, 0);
    var m0, m1 := s.producers[0], s.producers[1];
    var xs := s.producers[0 := m0.(i := m0.i + 1)];
    SumUpdate(s.producers, PostedWeight, 0, m0.(i := m0.i + 1));
    SumUpdate(xs, PostedWeight, 1, m1.(i := m1.i + 1));
    var ys := xs[1 := m1.(i := m1.i + 1)];
    assert ProducerShape(cfg, m0) && ProducerShape(cfg, m1);
    if forall k :: 0 <= k < |ys| ==> ys[k].i == cfg.strings {
      SumConstant(ys, PostedWeight, cfg.strings);
      assert false;
    }
    p :| 0 <= p < |ys| && ys[p].i != cfg.strings;
    assert ProducerShape(cfg, s.producers[p]);
  }

  /** One string is produced and printed, and its buffer comes back. */
  lemma QuietRound(cfg: Config, s: State) returns (t: State)
    requires cfg.buffers > 0 && cfg.opening.mutex > 0 && Quiet(cfg, s)
    requires |s.claims| + 3 <= cfg.producers * cfg.strings
    ensures Quiet(cfg, t) && |t.claims| == |s.claims| + 1
  {
    ReachableInv(cfg, s);
    var p := QuietChoice(cfg, s);
    assert |s.slots| == cfg.buffers && s.producers[p].i == s.producers[p].count;
    ModInRange(|s.claims|, cfg.buffers);
    hide Reachable, Inv;
    var u := ProduceOne(cfg, s, p);
    PrintInBounds(cfg, u);
    t := Recycle(cfg, u);
    ModSuccessor(|s.claims|, cfg.buffers);
  }

  lemma PrintInBounds(cfg: Config, s: State)
    requires cfg.buffers > 0 && Reachable(cfg, s) && s.spooler == GetString
    ensures s.printIndex < |s.slots| == cfg.buffers
  {
    ReachableInv(cfg, s);
    ModInRange(|s.printed|, cfg.buffers);
  }

  lemma {:induction false} QuietLap(cfg: Config, s: State, n: nat) returns (t: State)
    requires cfg.buffers > 0 && cfg.opening.mutex > 0 && Quiet(cfg, s)
    requires |s.claims| <= n && n + 2 <= cfg.producers * cfg.strings
    ensures Quiet(cfg, t) && |t.claims| == n
    decreases n - |s.claims|
  {
    hide Quiet;
    if |s.claims| == n {
      t := s;
    } else {
      t := QuietRound(cfg, s);
      t := QuietLap(cfg, t, n);
    }
  }

  /**
   With one string short of a lap claimed, producer 0 moves the index to the end of the array and
   is delayed before it wraps; producer 1, in the section too, reads it there.
   */
  lemma LeaveArray(cfg: Config, s: State) returns (t: State)
    requires cfg.buffers > 0 && cfg.opening.mutex >= 2 && Quiet(cfg, s) && |s.claims| == cfg.buffers - 1
    ensures Reachable(cfg, t) && Enabled(cfg, t, ProducerStep(1)) && !InBounds(t, ProducerStep(1))
  {
    PrintInBounds(cfg, s);
    ModUnique(cfg.buffers - 1, cfg.buffers, 0, cfg.buffers - 1);
    hide Reachable;
    var s1 := EnterSection(cfg, s, 0);
    var s2 := Next(cfg, s1, ProducerStep(0));
    var s3 := Next(cfg, s2, ProducerStep(0));
    assert s3.produceIndex == cfg.buffers && s3.producers[1] == s.producers[1];
    var s4 := EnterSection(cfg, s3, 1);
    var s5 := Next(cfg, s4, ProducerStep(1));
    var s6 := Next(cfg, s5, ProducerStep(1));
    var s7 := Next(cfg, s6, ProducerStep(1));
    t := Next(cfg, s7, ProducerStep(1));
    assert t.producers[1].pc == Fill && t.producers[1].j == cfg.buffers;
  }

  /** Every statement of every run stays inside the slot array exactly in the contained configurations. */
  lemma BoundsBoundary(cfg: Config)
    requires cfg.buffers > 0
    ensures (forall s, a :: Reachable(cfg, s) && Enabled(cfg, s, a) ==> InBounds(s, a)) <==> Contained(cfg)
  {
    hide Reachable, Enabled, InBounds;
    if Contained(cfg) {
      hide Contained;
      forall s, a | Reachable(cfg, s) && Enabled(cfg, s, a) ensures InBounds(s, a) {
        StaysInBounds(cfg, s, a);
      }
    } else {
      var s := StockedReachable(cfg, 2);
      ModUnique(0, cfg.buffers, 0, 0);
      var u := QuietLap(cfg, s, cfg.buffers - 1);
      var t := LeaveArray(cfg, u);
    }
  }
}
