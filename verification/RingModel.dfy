/**
 The multi-producer, single-spooler ring buffer: its state, and one atomic step per semaphore
 operation, slot access and index update of each thread.

 unnamed.c and named.c run the same protocol; they differ in where the print index lives and in
 how the semaphores are created, so both are instances of this machine.
 */
module RingModel {
  import opened Sums

  /**
   The values the three semaphores start from. `sem_init` sets them; `sem_open` with O_CREAT and
   without O_EXCL keeps whatever value an existing name has.
   */
  datatype Opening = Opening(mutex: nat, bufferCount: nat, spoolSignal: nat)

  /** `producers` threads, `buffers` slots, `strings` strings per producer, and the semaphores' start. */
  datatype Config = Config(producers: nat, buffers: nat, strings: nat, opening: Opening)

  /** The semaphores start as a first run creates them. */
  predicate Fresh(cfg: Config) {
    cfg.opening == Opening(1, cfg.buffers, 0)
  }

  /** The string "Producer p: n". */
  datatype Item = Item(producer: nat, number: nat)

  /** A slot is blank until its first sprintf. */
  datatype Slot = Blank | Text(item: Item)

  /** The statement a producer is about to execute. */
  datatype ProducerPc =
    | GetBuffer  // sem_wait(buffer_count_sem)
    | GetMutex   // sem_wait(mutex_sem)
    | ReadIndex  // j = buffer_produce_index
    | BumpIndex  // buffer_produce_index++
    | WrapIndex  // if it equals MAX_BUFFERS, back to 0
    | PutMutex   // sem_post(mutex_sem)
    | Fill       // sprintf(buf[j], ..., ++count)
    | Signal     // sem_post(spool_signal_sem), and the loop's i++
    | Finished

  /** A producer's locals. `claim` is history: how many indices had been handed out before `j`. */
  datatype Producer = Producer(pc: ProducerPc, i: nat, count: nat, j: nat, claim: nat)

  /** The statement the spooler is about to execute. */
  datatype SpoolerPc =
    | GetString  // sem_wait(spool_signal_sem)
    | Print      // printf("%s", buf[buffer_print_index])
    | BumpPrint  // buffer_print_index++
    | WrapPrint  // if it equals MAX_BUFFERS, back to 0
    | PutBuffer  // sem_post(buffer_count_sem)

  /** main joins the producers in order, polls the signal semaphore, cancels the spooler, exits. */
  datatype MainPc = Joining(next: nat) | Cancelling | Exited

  /**
   The shared variables and every thread's position. The last four fields are history: the
   strings in the order their indices were handed out, the claims in the order they were
   signalled, what was printed, and whether each print found its own string already written.
   */
  datatype State = State(
    bufferCount: nat, mutex: nat, spoolSignal: nat,
    produceIndex: nat, printIndex: nat,
    slots: seq<Slot>,
    producers: seq<Producer>, spooler: SpoolerPc, main: MainPc,
    claims: seq<Item>, posts: seq<nat>, printed: seq<Slot>, ready: seq<bool>)

  datatype Action = ProducerStep(p: nat) | SpoolerStep | MainStep

  function BlankSlots(cfg: Config): (r: seq<Slot>)
    ensures |r| == cfg.buffers && forall k :: 0 <= k < |r| ==> r[k] == Blank
  {
    seq(cfg.buffers, k => Blank)
  }

  /** A producer at the head of its loop, which it leaves at once if it has no string to produce. */
  function StartedProducer(cfg: Config): Producer {
    Producer(if cfg.strings == 0 then Finished else GetBuffer, 0, 0, 0, 0)
  }

  function StartedProducers(cfg: Config): (r: seq<Producer>)
    ensures |r| == cfg.producers && forall p :: 0 <= p < |r| ==> r[p] == StartedProducer(cfg)
  {
    seq(cfg.producers, p => StartedProducer(cfg))
  }

  /** After main's initialisation. */
  function Initial(cfg: Config): State {
    State(cfg.opening.bufferCount, cfg.opening.mutex, cfg.opening.spoolSignal, 0, 0,
          BlankSlots(cfg), StartedProducers(cfg), GetString, Joining(0), [], [], [], [])
  }

  /** The statement can be executed now: no semaphore blocks it. */
  predicate Enabled(cfg: Config, s: State, a: Action) {
    s.main != Exited &&
    match a
    case ProducerStep(p) =>
      p < |s.producers| &&
      (match s.producers[p].pc
       case GetBuffer => s.bufferCount > 0
       case GetMutex => s.mutex > 0
       case Finished => false
       case _ => true)
    case SpoolerStep => s.spooler == GetString ==> s.spoolSignal > 0
    case MainStep =>
      match s.main
      case Joining(next) =>
        if next < |s.producers| then s.producers[next].pc == Finished
        else s.spoolSignal == 0  // a poll that reads a positive value changes nothing
      case _ => true
  }

  /** The slot the statement touches, if any, lies inside the array. */
  predicate InBounds(s: State, a: Action) {
    match a
    case ProducerStep(p) => p < |s.producers| && (s.producers[p].pc == Fill ==> s.producers[p].j < |s.slots|)
    case SpoolerStep => s.spooler == Print ==> s.printIndex < |s.slots|
    case MainStep => true
  }

  /** The string of claim `c` has been written. */
  predicate Filled(producers: seq<Producer>, claims: seq<Item>, c: nat) {
    c < |claims| &&
    claims[c].producer < |producers| &&
    claims[c].number <= producers[claims[c].producer].count
  }

  function StepProducer(cfg: Config, s: State, p: nat): State
    requires p < |s.producers| && Enabled(cfg, s, ProducerStep(p)) && InBounds(s, ProducerStep(p))
  {
    var me := s.producers[p];
    match me.pc
    case GetBuffer =>
      s.(bufferCount := s.bufferCount - 1, producers := s.producers[p := me.(pc := GetMutex)])
    case GetMutex =>
      s.(mutex := s.mutex - 1, producers := s.producers[p := me.(pc := ReadIndex)])
    case ReadIndex =>
      s.(producers := s.producers[p := me.(pc := BumpIndex, j := s.produceIndex, claim := |s.claims|)],
         claims := s.claims + [Item(p, me.count + 1)])
    case BumpIndex =>
      s.(produceIndex := s.produceIndex + 1, producers := s.producers[p := me.(pc := WrapIndex)])
    case WrapIndex =>
      s.(produceIndex := if s.produceIndex == cfg.buffers then 0 else s.produceIndex,
         producers := s.producers[p := me.(pc := PutMutex)])
    case PutMutex =>
      s.(mutex := s.mutex + 1, producers := s.producers[p := me.(pc := Fill)])
    case Fill =>
      s.(slots := s.slots[me.j := Text(Item(p, me.count + 1))],
         producers := s.producers[p := me.(pc := Signal, count := me.count + 1)])
    case Signal =>
      s.(spoolSignal := s.spoolSignal + 1,
         producers := s.producers[p := me.(pc := if me.i + 1 < cfg.strings then GetBuffer else Finished,
                                           i := me.i + 1)],
         posts := s.posts + [me.claim])
  }

  function StepSpooler(cfg: Config, s: State): State
    requires Enabled(cfg, s, SpoolerStep) && InBounds(s, SpoolerStep)
  {
    match s.spooler
    case GetString => s.(spoolSignal := s.spoolSignal - 1, spooler := Print)
    case Print =>
      s.(spooler := BumpPrint,
         printed := s.printed + [s.slots[s.printIndex]],
         ready := s.ready + [Filled(s.producers, s.claims, |s.printed|)])
    case BumpPrint => s.(printIndex := s.printIndex + 1, spooler := WrapPrint)
    case WrapPrint =>
      s.(printIndex := if s.printIndex == cfg.buffers then 0 else s.printIndex, spooler := PutBuffer)
    case PutBuffer => s.(bufferCount := s.bufferCount + 1, spooler := GetString)
  }

  /**
   Between pthread_cancel and the exit of the process the spooler may stop at any of its
   cancellation points or keep going; a schedule decides by scheduling it or not.
   */
  function StepMain(cfg: Config, s: State): State
    requires Enabled(cfg, s, MainStep)
  {
    match s.main
    case Joining(next) => s.(main := if next < |s.producers| then Joining(next + 1) else Cancelling)
    case Cancelling => s.(main := Exited)
  }

  function Step(cfg: Config, s: State, a: Action): State
    requires Enabled(cfg, s, a) && InBounds(s, a)
  {
    match a
    case ProducerStep(p) => StepProducer(cfg, s, p)
    case SpoolerStep => StepSpooler(cfg, s)
    case MainStep => StepMain(cfg, s)
  }

  // ---------- The invariant ----------

  /** Between its sem_wait and its sem_post on mutex_sem. */
  predicate InSection(m: Producer) {
    m.pc.ReadIndex? || m.pc.BumpIndex? || m.pc.WrapIndex? || m.pc.PutMutex?
  }

  /** Between its sem_wait on buffer_count_sem and its sem_post on spool_signal_sem. */
  predicate HoldsToken(m: Producer) {
    m.pc.GetMutex? || m.pc.ReadIndex? || Pending(m)
  }

  /** It has an index and has not signalled it yet. */
  predicate Pending(m: Producer) {
    m.pc.BumpIndex? || m.pc.WrapIndex? || m.pc.PutMutex? || m.pc.Fill? || m.pc.Signal?
  }

  function SectionWeight(m: Producer): int { if InSection(m) then 1 else 0 }

  function TokenWeight(m: Producer): int { if HoldsToken(m) then 1 else 0 }

  function PendingWeight(m: Producer): int { if Pending(m) then 1 else 0 }

  function PostedWeight(m: Producer): int { m.i }

  /** How many strings the producer has taken an index for. */
  function Claimed(m: Producer): nat { m.i + if Pending(m) then 1 else 0 }

  /** Strings whose slot has been handed back: all printed ones but the one in progress. */
  function Released(s: State): int {
    |s.printed| - if s.spooler.GetString? || s.spooler.Print? then 0 else 1
  }

  predicate ProducerShape(cfg: Config, m: Producer) {
    && m.i <= cfg.strings
    && (m.pc == Finished <==> m.i == cfg.strings)
    && m.count == m.i + (if m.pc == Signal then 1 else 0)
  }

  predicate Shape(cfg: Config, s: State) {
    && cfg.buffers > 0
    && |s.slots| == cfg.buffers
    && |s.producers| == cfg.producers
    && (forall p :: 0 <= p < |s.producers| ==> ProducerShape(cfg, s.producers[p]))
  }

  predicate MainOk(producers: seq<Producer>, main: MainPc, spoolSignal: nat) {
    match main
    case Joining(next) =>
      && next <= |producers|
      && (forall p :: 0 <= p < next ==> producers[p].pc == Finished)
    case _ =>
      && (forall p :: 0 <= p < |producers| ==> producers[p].pc == Finished)
      && spoolSignal == 0
  }

  /** Conservation of the mutex: its value and the producers inside the index section never change in sum. */
  predicate MutexOk(cfg: Config, producers: seq<Producer>, mutex: nat) {
    mutex + Sum(producers, SectionWeight) == cfg.opening.mutex
  }

  /** At most one producer is in the index section. */
  predicate Exclusive(producers: seq<Producer>) {
    forall p, q :: 0 <= p < q < |producers| && InSection(producers[p]) ==> !InSection(producers[q])
  }

  /** In the middle of the index update. */
  predicate Moving(m: Producer) {
    m.pc.BumpIndex? || m.pc.WrapIndex?
  }

  /** A producer's j is its own claim number modulo the buffers; in the section its claim is the latest. */
  predicate PlaceOk(cfg: Config, m: Producer, claims: nat, index: nat)
    requires cfg.buffers > 0
  {
    && (Pending(m) ==> m.j == m.claim % cfg.buffers)
    && (InSection(m) && m.pc != ReadIndex ==> m.claim == claims - 1)
    && (m.pc == BumpIndex ==> index == (claims - 1) % cfg.buffers)
    && (m.pc == WrapIndex ==> index == (claims - 1) % cfg.buffers + 1)
  }

  /** The produce index is the number of claims modulo the buffers, but for an unfinished update. */
  predicate IndexOk(cfg: Config, producers: seq<Producer>, claims: nat, index: nat)
    requires cfg.buffers > 0
  {
    && (forall p :: 0 <= p < |producers| ==> PlaceOk(cfg, producers[p], claims, index))
    && ((forall p :: 0 <= p < |producers| ==> !Moving(producers[p])) ==> index == claims % cfg.buffers)
  }

  /** The same for the print index, which only the spooler touches, and the number of strings printed. */
  predicate PrintIndexOk(cfg: Config, spooler: SpoolerPc, printed: nat, index: nat)
    requires cfg.buffers > 0
  {
    match spooler
    case BumpPrint => printed > 0 && index == (printed - 1) % cfg.buffers
    case WrapPrint => printed > 0 && index == (printed - 1) % cfg.buffers + 1
    case PutBuffer => printed > 0 && index == printed % cfg.buffers
    case _ => index == printed % cfg.buffers
  }

  /** Buffer tokens in circulation: a signal left over from before becomes a free buffer once taken. */
  function Tokens(cfg: Config): nat {
    cfg.opening.bufferCount + cfg.opening.spoolSignal
  }

  /** Conservation of buffer tokens, of claims and of signals. */
  predicate TokensOk(cfg: Config, s: State) {
    && s.bufferCount + Sum(s.producers, TokenWeight) + s.spoolSignal
       + (if s.spooler == GetString then 0 else 1) == Tokens(cfg)
    && |s.claims| == |s.posts| + Sum(s.producers, PendingWeight)
    && |s.posts| == Sum(s.producers, PostedWeight)
    && |s.posts| + cfg.opening.spoolSignal == s.spoolSignal + |s.printed| + (if s.spooler == Print then 1 else 0)
  }

  /** Who owns which claim: it is pending with its producer until it is posted. */
  predicate ClaimsOk(producers: seq<Producer>, claims: seq<Item>, posts: seq<nat>) {
    && (forall p :: 0 <= p < |producers| && Pending(producers[p]) ==>
          && producers[p].claim < |claims|
          && claims[producers[p].claim] == Item(p, producers[p].i + 1)
          && producers[p].claim !in posts)
    && (forall c :: c in posts ==> Filled(producers, claims, c))
  }

  /** Claimed strings exist, and each producer's are numbered upwards; so all claims differ. */
  predicate NumbersOk(producers: seq<Producer>, claims: seq<Item>) {
    && (forall c :: 0 <= c < |claims| ==>
          && claims[c].producer < |producers|
          && 1 <= claims[c].number <= Claimed(producers[claims[c].producer]))
    && (forall c, d :: 0 <= c < d < |claims| && claims[c].producer == claims[d].producer ==>
          claims[c].number < claims[d].number)
  }

  /** A written slot, and a printed one, holds a string its producer has already counted. */
  predicate SlotsOk(producers: seq<Producer>, slots: seq<Slot>) {
    forall k :: 0 <= k < |slots| && slots[k].Text? ==>
      && slots[k].item.producer < |producers|
      && slots[k].item.number <= producers[slots[k].item.producer].count
  }

  predicate AllReady(ready: seq<bool>) {
    forall k :: 0 <= k < |ready| ==> ready[k]
  }

  /** Every print so far showed the string of the claim with its own number. */
  predicate Fifo(claims: seq<Item>, printed: seq<Slot>) {
    |printed| <= |claims| &&
    forall k :: 0 <= k < |printed| ==> printed[k] == Text(claims[k])
  }

  /** What `ready` records about the prints. */
  predicate ReadyOk(producers: seq<Producer>, claims: seq<Item>, printed: seq<Slot>, ready: seq<bool>) {
    && |ready| == |printed|
    && (forall k :: 0 <= k < |ready| && ready[k] ==> Filled(producers, claims, k))
    && (forall k :: 0 <= k < |ready| && k < |claims| && !ready[k] ==> printed[k] != Text(claims[k]))
  }

  /** A written string stays in its slot until the claim one lap later is written. */
  predicate Intact(cfg: Config, producers: seq<Producer>, claims: seq<Item>, slots: seq<Slot>)
    requires cfg.buffers > 0
  {
    forall c :: 0 <= c < |claims| && Filled(producers, claims, c) && !Filled(producers, claims, c + cfg.buffers) ==>
      c % cfg.buffers < |slots| && slots[c % cfg.buffers] == Text(claims[c])
  }

  /** The string numbers producer p claimed, in the order of `items`. */
  function Project(items: seq<Item>, p: nat): seq<nat> {
    if items == [] then []
    else
      var last := items[|items| - 1];
      Project(items[..|items| - 1], p) + if last.producer == p then [last.number] else []
  }

  /** 1, 2, ..., n */
  function UpTo(n: nat): (r: seq<nat>)
    ensures |r| == n && forall k :: 0 <= k < n ==> r[k] == k + 1
  {
    seq(n, k => k + 1)
  }

  /** Each producer's strings are claimed in the order 1, 2, 3, ... without gap or repeat. */
  predicate OrderOk(producers: seq<Producer>, claims: seq<Item>) {
    forall p :: 0 <= p < |producers| ==> Project(claims, p) == UpTo(Claimed(producers[p]))
  }

  /** Signals were posted in the order the indices were handed out. */
  predicate InOrder(posts: seq<nat>) {
    forall k :: 0 <= k < |posts| ==> posts[k] == k
  }

  // What an opening must give for each layer of guarantees.

  /** Two producers cannot meet in the index section: one mutex, one producer, one token, or no work. */
  predicate Guarded(cfg: Config) {
    cfg.opening.mutex <= 1 || cfg.producers <= 1 || Tokens(cfg) <= 1 || cfg.strings == 0
  }

  /** No claim can run a lap ahead of the spooler: enough tokens are missing, or enough strings. */
  predicate Spaced(cfg: Config) {
    cfg.opening.bufferCount <= cfg.buffers || cfg.producers * cfg.strings <= cfg.buffers
  }

  predicate CountsInv(cfg: Config, s: State) {
    && Shape(cfg, s)
    && MainOk(s.producers, s.main, s.spoolSignal)
    && MutexOk(cfg, s.producers, s.mutex)
    && TokensOk(cfg, s)
    && PrintIndexOk(cfg, s.spooler, |s.printed|, s.printIndex)
  }

  predicate ClaimsInv(s: State) {
    && ClaimsOk(s.producers, s.claims, s.posts)
    && NumbersOk(s.producers, s.claims)
    && SlotsOk(s.producers, s.slots)
    && SlotsOk(s.producers, s.printed)
    && OrderOk(s.producers, s.claims)
  }

  predicate FifoInv(cfg: Config, s: State)
    requires cfg.buffers > 0
  {
    && ReadyOk(s.producers, s.claims, s.printed, s.ready)
    && (cfg.opening.spoolSignal == 0 && InOrder(s.posts) ==> AllReady(s.ready))
    && (Guarded(cfg) && Spaced(cfg) && AllReady(s.ready) ==>
          Fifo(s.claims, s.printed) && Intact(cfg, s.producers, s.claims, s.slots))
  }

  /** What every reachable state satisfies, whatever values the semaphores were opened with. */
  predicate Inv(cfg: Config, s: State) {
    && CountsInv(cfg, s)
    && ClaimsInv(s)
    && (Guarded(cfg) ==> IndexOk(cfg, s.producers, |s.claims|, s.produceIndex))
    && FifoInv(cfg, s)
  }
}
