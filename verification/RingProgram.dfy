/** The ring as the program keeps it, in shared variables and arrays updated in place. */
module RingProgram {
  import opened RingModel
  import opened RingInvariant
  import opened RingFifo
  import opened RingBoundary
  import opened RingBounds
  import opened RingProgress
  import opened RingOutput

  class Spool {
    const cfg: Config
    var bufferCount: nat
    var mutex: nat
    var spoolSignal: nat
    var produceIndex: nat
    var printIndex: nat
    const buf: array<Slot>
    const locals: array<Producer>
    var spooler: SpoolerPc
    var main: MainPc
    var output: seq<Slot>
    // history
    var claims: seq<Item>
    var posts: seq<nat>
    var ready: seq<bool>

    ghost function Abs(): State
      reads this, buf, locals
    {
      State(bufferCount, mutex, spoolSignal, produceIndex, printIndex, buf[..], locals[..], spooler, main,
            claims, posts, output, ready)
    }

    /** Some schedule has brought the program here, from an opening that keeps j inside buf. */
    ghost predicate Valid()
      reads this, buf, locals
    {
      cfg.buffers > 0 && Contained(cfg) && Reachable(cfg, Abs())
    }

    /** main's initialisation and the start of the threads. */
    constructor (cfg: Config)
      requires cfg.buffers > 0 && Contained(cfg)
      ensures Valid() && Abs() == Initial(cfg) && this.cfg == cfg && fresh(buf) && fresh(locals)
    {
      this.cfg := cfg;
      bufferCount, mutex, spoolSignal := cfg.opening.bufferCount, cfg.opening.mutex, cfg.opening.spoolSignal;
      produceIndex, printIndex := 0, 0;
      var slots := new Slot[cfg.buffers](k => Blank);
      var threads := new Producer[cfg.producers](p => StartedProducer(cfg));
      buf, locals := slots, threads;
      spooler, main, output := GetString, Joining(0), [];
      claims, posts, ready := [], [], [];
      new;
      assert buf[..] == BlankSlots(cfg);
      assert locals[..] == StartedProducers(cfg);
      InitialReachable(cfg);
      hide Reachable, Contained;
    }

    /** sem_wait(buffer_count_sem), sem_wait(mutex_sem), sem_post(mutex_sem). */
    method MoveSemaphore(p: nat)
      requires p < locals.Length && Enabled(cfg, Abs(), ProducerStep(p))
      requires locals[p].pc in {GetBuffer, GetMutex, PutMutex}
      modifies `bufferCount, `mutex, locals
      ensures Abs() == StepProducer(cfg, old(Abs()), p)
    {
      var me := locals[p];
      if me.pc == GetBuffer {
        bufferCount := bufferCount - 1;
        locals[p] := me.(pc := GetMutex);
      } else if me.pc == GetMutex {
        mutex := mutex - 1;
        locals[p] := me.(pc := ReadIndex);
      } else {
        mutex := mutex + 1;
        locals[p] := me.(pc := Fill);
      }
      assert locals[..] == old(locals[..])[p := locals[p]];
    }

    /** The critical section: j = buffer_produce_index, the increment, the wrap. */
    method MoveProduceIndex(p: nat)
      requires p < locals.Length && Enabled(cfg, Abs(), ProducerStep(p))
      requires locals[p].pc in {ReadIndex, BumpIndex, WrapIndex}
      modifies `produceIndex, `claims, locals
      ensures Abs() == StepProducer(cfg, old(Abs()), p)
    {
      var me := locals[p];
      if me.pc == ReadIndex {
        locals[p] := me.(pc := BumpIndex, j := produceIndex, claim := |claims|);
        claims := claims + [Item(p, me.count + 1)];
      } else if me.pc == BumpIndex {
        produceIndex := produceIndex + 1;
        locals[p] := me.(pc := WrapIndex);
      } else {
        if produceIndex == cfg.buffers {
          produceIndex := 0;
        }
        locals[p] := me.(pc := PutMutex);
      }
      assert locals[..] == old(locals[..])[p := locals[p]];
    }

    /** sprintf into the slot, and sem_post(spool_signal_sem) with the loop's increment. */
    method WriteOrSignal(p: nat)
      requires p < locals.Length && Enabled(cfg, Abs(), ProducerStep(p)) && InBounds(Abs(), ProducerStep(p))
      requires locals[p].pc in {Fill, Signal}
      modifies `spoolSignal, `posts, buf, locals
      ensures Abs() == StepProducer(cfg, old(Abs()), p)
    {
      var me := locals[p];
      if me.pc == Fill {
        locals[p] := me.(pc := Signal, count := me.count + 1);
        buf[me.j] := Text(Item(p, locals[p].count));
        assert buf[..] == old(buf[..])[me.j := Text(Item(p, me.count + 1))];
      } else {
        spoolSignal := spoolSignal + 1;
        posts := posts + [me.claim];
        locals[p] := me.(pc := if me.i + 1 < cfg.strings then GetBuffer else Finished, i := me.i + 1);
      }
      assert locals[..] == old(locals[..])[p := locals[p]];
    }

    /** The next statement of the spooler. */
    method RunSpooler()
      requires Enabled(cfg, Abs(), SpoolerStep) && InBounds(Abs(), SpoolerStep)
      modifies `spooler, `spoolSignal, `output, `ready, `printIndex, `bufferCount
      ensures Abs() == StepSpooler(cfg, old(Abs()))
    {
      match spooler {
        case GetString =>
          spoolSignal := spoolSignal - 1;
          spooler := Print;
        case Print =>
          ready := ready + [Filled(locals[..], claims, |output|)];
          output := output + [buf[printIndex]];
          spooler := BumpPrint;
        case BumpPrint =>
          printIndex := printIndex + 1;
          spooler := WrapPrint;
        case WrapPrint =>
          if printIndex == cfg.buffers {
            printIndex := 0;
          }
          spooler := PutBuffer;
        case PutBuffer =>
          bufferCount := bufferCount + 1;
          spooler := GetString;
      }
    }

    /** main's next join, its last poll, or its exit. */
    method RunMain()
      requires Enabled(cfg, Abs(), MainStep)
      modifies `main
      ensures Abs() == StepMain(cfg, old(Abs()))
    {
      match main {
        case Joining(next) => main := if next < locals.Length then Joining(next + 1) else Cancelling;
        case Cancelling => main := Exited;
      }
    }

    /** Whether a thread's next statement can be executed. */
    method CanRun(a: Action) returns (able: bool)
      ensures able == Enabled(cfg, Abs(), a)
    {
      match a {
        case ProducerStep(p) =>
          able := main != Exited && p < locals.Length && locals[p].pc != Finished
            && (locals[p].pc == GetBuffer ==> bufferCount > 0) && (locals[p].pc == GetMutex ==> mutex > 0);
        case SpoolerStep => able := main != Exited && (spooler == GetString ==> spoolSignal > 0);
        case MainStep =>
          able := main != Exited;
          if main.Joining? {
            able := if main.next < locals.Length then locals[main.next].pc == Finished else spoolSignal == 0;
          }
      }
    }

    /** One scheduling decision. */
    method RunOne(a: Action)
      requires Valid()
      modifies this, buf, locals
      ensures Abs() == Try(cfg, old(Abs()), a)
    {
      hide Reachable, Contained, Filled, InBounds;
      var able := CanRun(a);
      if able {
        StaysInBounds(cfg, Abs(), a);
        hide Inv;
        match a {
          case ProducerStep(p) =>
            if locals[p].pc in {GetBuffer, GetMutex, PutMutex} {
              MoveSemaphore(p);
            } else if locals[p].pc in {ReadIndex, BumpIndex, WrapIndex} {
              MoveProduceIndex(p);
            } else {
              WriteOrSignal(p);
            }
          case SpoolerStep => RunSpooler();
          case MainStep => RunMain();
        }
      }
    }

    /**
     The whole program under an arbitrary schedule does what the step machine does. At the exit the
     output is complete but for a string the spooler has taken and not printed; and where every run
     is FIFO, or this run's output shows no blank and no repeat, each producer's part of it is
     1, 2, 3, ... up to its last string.
     */
    method Run(schedule: seq<Action>)
      requires Valid()
      modifies this, buf, locals
      ensures Valid() && Abs() == Exec(cfg, old(Abs()), schedule)
      ensures main == Exited ==> spoolSignal == 0 && |output| == Expected(cfg) - if spooler == Print then 1 else 0
      ensures (cfg.opening.spoolSignal == 0 && Narrow(cfg) && Spaced(cfg)) ||
              (Guarded(cfg) && Spaced(cfg) && !Spoiled(output)) ==>
                forall p :: 0 <= p < cfg.producers ==>
                  && PrintedNumbers(output, p) <= UpTo(cfg.strings)
                  && (main == Exited && spooler != Print ==> PrintedNumbers(output, p) == UpTo(cfg.strings))
    {
      hide Reachable, Contained, Guarded, Narrow, Spaced, Try, PrintedNumbers, UpTo, Spoiled;
      ghost var start := Abs();
      var k := 0;
      while k < |schedule|
        invariant 0 <= k <= |schedule|
        invariant cfg.buffers > 0 && Contained(cfg) && Reachable(cfg, start)
        invariant Abs() == Exec(cfg, start, schedule[..k])
      {
        ReachableExec(cfg, start, schedule[..k]);
        RunOne(schedule[k]);
        assert schedule[..k + 1] == schedule[..k] + [schedule[k]];
        ExecSnoc(cfg, start, schedule[..k], schedule[k]);
        k := k + 1;
      }
      assert schedule[..k] == schedule;
      ReachableExec(cfg, start, schedule);
      OutputSoFar(cfg, Abs());
    }
  }

  /** What the output is in any state of a program, at its exit and before. */
  lemma OutputSoFar(cfg: Config, s: State)
    requires cfg.buffers > 0 && Reachable(cfg, s)
    ensures s.main == Exited ==>
              s.spoolSignal == 0 && |s.printed| == Expected(cfg) - if s.spooler == Print then 1 else 0
    ensures (cfg.opening.spoolSignal == 0 && Narrow(cfg) && Spaced(cfg)) ||
            (Guarded(cfg) && Spaced(cfg) && !Spoiled(s.printed)) ==>
              forall p :: 0 <= p < cfg.producers ==>
                && PrintedNumbers(s.printed, p) <= UpTo(cfg.strings)
                && (s.main == Exited && s.spooler != Print ==> PrintedNumbers(s.printed, p) == UpTo(cfg.strings))
  {
    hide Reachable, Contained, Guarded, Narrow, Spaced, PrintedNumbers, UpTo, Fifo, Spoiled;
    if s.main == Exited {
      Shutdown(cfg, s);
    }
    if (cfg.opening.spoolSignal == 0 && Narrow(cfg) && Spaced(cfg)) ||
      (Guarded(cfg) && Spaced(cfg) && !Spoiled(s.printed))
    {
      FifoBoundary(cfg);
      if Guarded(cfg) && Spaced(cfg) {
        FifoIsVisible(cfg, s);
      }
      forall p | 0 <= p < cfg.producers
        ensures PrintedNumbers(s.printed, p) <= UpTo(cfg.strings)
        ensures s.main == Exited && s.spooler != Print ==> PrintedNumbers(s.printed, p) == UpTo(cfg.strings)
      {
        OutputIsInterleaving(cfg, s, p);
        if s.main == Exited && s.spooler != Print {
          CompleteOutput(cfg, s, p);
        }
      }
    }
  }
}
