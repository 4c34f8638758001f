/**
 The two processes of the practical exercise: the writer frames typed text and signals onto a
 FIFO, the reader takes bytes off it and sorts them into two files.
 */
module Framing {
  import opened CStrings

  const DATA: string := "DATA: "
  const SIGN: string := "SIGN: "

  /** Bytes of payload per read of stdin, and bytes per read of the FIFO. */
  const PAYLOAD_MAX: nat := 20
  const READ_MAX: nat := 26

  datatype Message = Data(payload: string) | Signal(usr1: bool)

  function Digit(usr1: bool): string { if usr1 then "1" else "2" }

  /** The bytes one write puts on the FIFO. */
  function Frame(m: Message): (f: string)
    ensures |f| >= 6
  {
    match m
    case Data(payload) => DATA + payload
    case Signal(usr1) => SIGN + Digit(usr1)
  }

  /** What a read of stdin becomes: a short read loses its last byte, a full one keeps it. */
  function RawPayload(chunk: string): string
    requires |chunk| > 0
  {
    if |chunk| < PAYLOAD_MAX then chunk[..|chunk| - 1] else chunk
  }

  function Payload(chunk: string): string
    requires |chunk| > 0
  {
    CString(RawPayload(chunk))
  }

  function Frames(ms: seq<Message>): seq<string> {
    if ms == [] then [] else [Frame(ms[0])] + Frames(ms[1..])
  }

  /** A payload the writer can produce. */
  predicate Sendable(m: Message) {
    m.Data? ==> |m.payload| <= PAYLOAD_MAX && NulFree(m.payload)
  }

  predicate AllSendable(ms: seq<Message>) {
    forall k :: 0 <= k < |ms| ==> Sendable(ms[k])
  }

  // ---------- The reader's dispatch ----------

  datatype Files = Files(log: string, signals: string)

  /** check_and_write_msg, on the C string one read delivered. */
  function Dispatch(files: Files, msg: string): Files {
    if DATA <= msg then files.(log := files.log + msg[6..] + "\n")
    else if SIGN <= msg then files.(signals := files.signals + msg[6..] + "\n")
    else files
  }

  function Deliver(files: Files, received: seq<string>): Files
    decreases |received|
  {
    if received == [] then files else Deliver(Dispatch(files, CString(received[0])), received[1..])
  }

  /** Each string with a newline behind it. */
  function Lines(ps: seq<string>): string {
    if ps == [] then "" else ps[0] + "\n" + Lines(ps[1..])
  }

  function DataOf(ms: seq<Message>): seq<string> {
    if ms == [] then []
    else (if ms[0].Data? then [ms[0].payload] else []) + DataOf(ms[1..])
  }

  function SignalsOf(ms: seq<Message>): seq<string> {
    if ms == [] then []
    else (if ms[0].Signal? then [Digit(ms[0].usr1)] else []) + SignalsOf(ms[1..])
  }

  lemma DispatchFrame(files: Files, m: Message)
    requires Sendable(m)
    ensures Dispatch(files, CString(Frame(m))) ==
            match m
            case Data(payload) => files.(log := files.log + payload + "\n")
            case Signal(usr1) => files.(signals := files.signals + Digit(usr1) + "\n")
  {
    CStringIsPrefix(Frame(m));
    assert CString(Frame(m)) == Frame(m);
    match m
    case Data(payload) => assert (DATA + payload)[6..] == payload;
    case Signal(usr1) =>
      assert (SIGN + Digit(usr1))[6..] == Digit(usr1);
      assert SIGN[0] != DATA[0];
  }

  /**
   Demultiplexing undoes the merge: whatever the interleaving of data and signals, one read per
   frame sends every payload to the log and every signal digit to the signals file, in order.
   */
  lemma {:induction false} DemuxInvertsMerge(files: Files, ms: seq<Message>)
    requires AllSendable(ms)
    ensures Deliver(files, Frames(ms)) == Files(files.log + Lines(DataOf(ms)), files.signals + Lines(SignalsOf(ms)))
    decreases |ms|
  {
    if ms == [] {
      assert files.log + "" == files.log && files.signals + "" == files.signals;
    } else {
      var next := Dispatch(files, CString(Frame(ms[0])));
      DispatchFrame(files, ms[0]);
      assert Frames(ms)[0] == Frame(ms[0]) && Frames(ms)[1..] == Frames(ms[1..]);
      DemuxInvertsMerge(next, ms[1..]);
      if ms[0].Data? {
        assert SignalsOf(ms) == SignalsOf(ms[1..]);
        LinesCons(files.log, ms[0].payload, DataOf(ms[1..]));
      } else {
        assert DataOf(ms) == DataOf(ms[1..]);
        LinesCons(files.signals, Digit(ms[0].usr1), SignalsOf(ms[1..]));
      }
    }
  }

  lemma LinesCons(before: string, p: string, ps: seq<string>)
    ensures before + p + "\n" + Lines(ps) == before + Lines([p] + ps)
  {
    assert ([p] + ps)[1..] == ps;
    assert before + p + "\n" + Lines(ps) == before + (p + "\n" + Lines(ps));
  }

  // ---------- Framing under every schedule ----------

  /** The FIFO sees atomic appends of whole frames and reads of at most READ_MAX bytes. */
  datatype Event = Append(frame: string) | Read

  function Min(a: nat, b: nat): nat { if a < b then a else b }

  /** What the successive reads return; a read of an empty FIFO blocks and returns nothing. */
  function Reads(pipe: string, events: seq<Event>): seq<string>
    decreases |events|
  {
    if events == [] then []
    else match events[0]
      case Append(f) => Reads(pipe + f, events[1..])
      case Read =>
        var n := Min(READ_MAX, |pipe|);
        if n == 0 then Reads(pipe, events[1..]) else [pipe[..n]] + Reads(pipe[n..], events[1..])
  }

  function Appended(events: seq<Event>): seq<string> {
    if events == [] then []
    else (if events[0].Append? then [events[0].frame] else []) + Appended(events[1..])
  }

  function Concat(fs: seq<string>): string {
    if fs == [] then "" else fs[0] + Concat(fs[1..])
  }

  /** Every read that meets a head frame shorter than READ_MAX finds it alone in the FIFO. */
  predicate Clean(pending: seq<string>, events: seq<Event>)
    decreases |events|
  {
    events == [] ||
    match events[0]
    case Append(f) => Clean(pending + [f], events[1..])
    case Read =>
      if pending == [] then Clean(pending, events[1..])
      else (|pending[0]| == READ_MAX || |pending| == 1) && Clean(pending[1..], events[1..])
  }

  predicate FrameSized(f: string) { 1 <= |f| <= READ_MAX }

  predicate AllFrameSized(fs: seq<string>) {
    forall k :: 0 <= k < |fs| ==> FrameSized(fs[k])
  }

  lemma {:induction false} ConcatAppend(fs: seq<string>, f: string)
    ensures Concat(fs + [f]) == Concat(fs) + f
  {
    if fs != [] {
      ConcatAppend(fs[1..], f);
      assert (fs + [f])[1..] == fs[1..] + [f];
      assert fs[0] + (Concat(fs[1..]) + f) == fs[0] + Concat(fs[1..]) + f;
    } else {
      assert fs + [f] == [f] && [f][1..] == [];
    }
  }

  lemma ConcatEmpty()
    ensures Concat([]) == ""
  {
  }

  lemma {:induction false} ConcatLength(fs: seq<string>)
    requires AllFrameSized(fs)
    ensures |Concat(fs)| >= |fs|
  {
    if fs != [] {
      ConcatLength(fs[1..]);
    }
  }

  /** A read returns the head frame exactly when it is full or alone; else it runs into the next. */
  lemma ReadTakesHeadOrMore(pending: seq<string>)
    requires AllFrameSized(pending) && pending != []
    ensures
      var n := Min(READ_MAX, |Concat(pending)|);
      && n > 0
      && (|pending[0]| == READ_MAX || |pending| == 1 ==> n == |pending[0]|)
      && (|pending[0]| != READ_MAX && |pending| != 1 ==> n > |pending[0]|)
      && Concat(pending)[..|pending[0]|] == pending[0]
      && Concat(pending)[|pending[0]|..] == Concat(pending[1..])
  {
    ConcatLength(pending[1..]);
    assert |pending| == 1 ==> pending[1..] == [];
  }

  lemma ConsPrefix<T>(x: T, xs: seq<T>, y: T, ys: seq<T>)
    ensures [x] + xs <= [y] + ys <==> x == y && xs <= ys
  {
    var u, v := [x] + xs, [y] + ys;
    if u <= v {
      assert u[0] == v[0];
      assert forall k :: 0 <= k < |xs| ==> xs[k] == u[k + 1] == v[k + 1] == ys[k];
    }
    if x == y && xs <= ys {
      assert forall k :: 0 <= k < |u| ==> u[k] == v[k];
    }
  }

  /** One read of a non-empty FIFO, given the claim for what follows it. */
  lemma ReadKeepsExactness(pending: seq<string>, rest: seq<Event>, appended: seq<string>)
    requires AllFrameSized(pending) && pending != []
    requires Reads(Concat(pending[1..]), rest) <= pending[1..] + appended <==> Clean(pending[1..], rest)
    ensures Reads(Concat(pending), [Read] + rest) <= pending + appended <==> Clean(pending, [Read] + rest)
  {
    hide Reads, Clean, Concat, AllFrameSized;
    ReadTakesHeadOrMore(pending);
    ReadUnfolds(Concat(pending), rest);
    CleanUnfolds(pending, rest);
    var pipe, tail := Concat(pending), pending[1..] + appended;
    var n := Min(READ_MAX, |pipe|);
    assert pending + appended == [pending[0]] + tail;
    ConsPrefix(pipe[..n], Reads(pipe[n..], rest), pending[0], tail);
    if |pending[0]| == READ_MAX || |pending| == 1 {
      assert pipe[..n] == pending[0] && pipe[n..] == Concat(pending[1..]);
    } else {
      assert |pipe[..n]| > |pending[0]|;
    }
  }

  lemma ReadUnfolds(pipe: string, rest: seq<Event>)
    requires pipe != ""
    ensures
      var n := Min(READ_MAX, |pipe|);
      Reads(pipe, [Read] + rest) == [pipe[..n]] + Reads(pipe[n..], rest)
  {
    assert ([Read] + rest)[1..] == rest;
  }

  lemma CleanUnfolds(pending: seq<string>, rest: seq<Event>)
    requires pending != []
    ensures Clean(pending, [Read] + rest) <==>
            (|pending[0]| == READ_MAX || |pending| == 1) && Clean(pending[1..], rest)
  {
    assert ([Read] + rest)[1..] == rest;
  }

  lemma AppendedCons(f: string, rest: seq<Event>)
    ensures Appended([Append(f)] + rest) == [f] + Appended(rest)
    ensures AllFrameSized([f] + Appended(rest)) <==> FrameSized(f) && AllFrameSized(Appended(rest))
  {
    assert ([Append(f)] + rest)[1..] == rest;
    var all := [f] + Appended(rest);
    assert all[0] == f && forall k :: 0 <= k < |Appended(rest)| ==> Appended(rest)[k] == all[k + 1];
  }

  /** The reads reproduce the frames, in order, exactly when the schedule is clean. */
  lemma {:induction false} FramedExactlyWhenClean(pending: seq<string>, events: seq<Event>)
    requires AllFrameSized(pending) && AllFrameSized(Appended(events))
    ensures Reads(Concat(pending), events) <= pending + Appended(events) <==> Clean(pending, events)
    decreases |events|
  {
    if events != [] {
      var rest := events[1..];
      assert events == [events[0]] + rest;
      match events[0]
      case Append(f) =>
        AppendedCons(f, rest);
        ConcatAppend(pending, f);
        FramedExactlyWhenClean(pending + [f], rest);
        assert pending + [f] + Appended(rest) == pending + Appended(events);
      case Read =>
        assert Appended(events) == Appended(rest);
        if pending == [] {
          FramedExactlyWhenClean(pending, rest);
        } else {
          FramedExactlyWhenClean(pending[1..], rest);
          ReadKeepsExactness(pending, rest, Appended(rest));
        }
    }
  }

  /** All frames but the last are full. */
  predicate OnlyLastShort(fs: seq<string>) {
    forall k :: 0 <= k < |fs| - 1 ==> |fs[k]| == READ_MAX
  }

  /** What is read next is full, or the last of all; and the rest is again full but for the last. */
  lemma FullHead(pending: seq<string>, later: seq<string>)
    requires OnlyLastShort(pending + later) && pending != []
    ensures |pending[0]| == READ_MAX || |pending| == 1
    ensures OnlyLastShort(pending[1..] + later)
  {
    var all, tail := pending + later, pending[1..] + later;
    assert all[0] == pending[0];
    assert forall k :: 0 <= k < |tail| ==> tail[k] == all[k + 1];
  }

  lemma {:induction false} FullFramesAreClean(pending: seq<string>, events: seq<Event>)
    requires OnlyLastShort(pending + Appended(events))
    ensures Clean(pending, events)
    decreases |events|
  {
    hide OnlyLastShort;
    if events != [] {
      var rest := events[1..];
      match events[0]
      case Append(f) =>
        assert pending + Appended(events) == (pending + [f]) + Appended(rest);
        FullFramesAreClean(pending + [f], rest);
      case Read =>
        assert Appended(events) == Appended(rest);
        if pending == [] {
          FullFramesAreClean(pending, rest);
        } else {
          FullHead(pending, Appended(rest));
          FullFramesAreClean(pending[1..], rest);
        }
    }
  }

  function AppendAll(fs: seq<string>): (events: seq<Event>)
    ensures Appended(events) == fs
  {
    if fs == [] then [] else [Append(fs[0])] + AppendAll(fs[1..])
  }

  /** Reading only after everything is written trips over the first short frame that is not last. */
  lemma {:induction false} BacklogIsNotClean(pending: seq<string>, fs: seq<string>, k: nat) returns (n: nat)
    requires k < |pending + fs| - 1 && |(pending + fs)[k]| != READ_MAX
    ensures !Clean(pending, AppendAll(fs) + seq(n, i => Read))
    decreases |fs|, k
  {
    if fs != [] {
      assert pending + fs == (pending + [fs[0]]) + fs[1..];
      n := BacklogIsNotClean(pending + [fs[0]], fs[1..], k);
      var events := AppendAll(fs) + seq(n, i => Read);
      assert events[0] == Append(fs[0]) && events[1..] == AppendAll(fs[1..]) + seq(n, i => Read);
    } else {
      assert pending + fs == pending;
      n := 0;
      if |pending[0]| == READ_MAX {
        n := BacklogIsNotClean(pending[1..], fs, k - 1);
      }
      var events := AppendAll(fs) + seq(n + 1, i => Read);
      assert events[0] == Read && events[1..] == AppendAll(fs) + seq(n, i => Read);
      n := n + 1;
    }
  }

  lemma {:induction false} AppendedThenReads(fs: seq<string>, n: nat)
    ensures Appended(AppendAll(fs) + seq(n, i => Read)) == fs
    decreases |fs|, n
  {
    var events := AppendAll(fs) + seq(n, i => Read);
    if fs != [] {
      assert events[0] == Append(fs[0]) && events[1..] == AppendAll(fs[1..]) + seq(n, i => Read);
      AppendedThenReads(fs[1..], n);
    } else if n > 0 {
      assert events[0] == Read && events[1..] == AppendAll(fs) + seq(n - 1, i => Read);
      AppendedThenReads(fs, n - 1);
    }
  }

  lemma UncleanSchedule(fs: seq<string>) returns (events: seq<Event>)
    requires !OnlyLastShort(fs)
    ensures Appended(events) == fs && !Clean([], events)
  {
    var k :| 0 <= k < |fs| - 1 && |fs[k]| != READ_MAX;
    assert [] + fs == fs;
    var n := BacklogIsNotClean([], fs, k);
    events := AppendAll(fs) + seq(n, i => Read);
    AppendedThenReads(fs, n);
  }

  /**
   The exact boundary of the protocol: a list of frames is read back intact under every schedule
   exactly when no frame but the last is short.
   */
  lemma IntactUnderEverySchedule(fs: seq<string>)
    requires AllFrameSized(fs)
    ensures (forall events :: Appended(events) == fs ==> Reads("", events) <= fs) <==> OnlyLastShort(fs)
  {
    if OnlyLastShort(fs) {
      forall events | Appended(events) == fs ensures Reads("", events) <= fs {
        assert [] + Appended(events) == fs;
        FullFramesAreClean([], events);
        FramedExactlyWhenClean([], events);
      }
    } else {
      var events := UncleanSchedule(fs);
      FramedExactlyWhenClean([], events);
      assert [] + Appended(events) == fs;
    }
  }

  // ---------- Chunking ----------

  /** A terminal hands out a typed line in reads of at most PAYLOAD_MAX bytes. */
  function Pieces(s: string): seq<string>
    decreases |s|
  {
    if s == "" then []
    else if |s| <= PAYLOAD_MAX then [s]
    else [s[..PAYLOAD_MAX]] + Pieces(s[PAYLOAD_MAX..])
  }

  predicate NonEmpty(chunks: seq<string>) {
    forall k :: 0 <= k < |chunks| ==> |chunks[k]| > 0
  }

  lemma {:induction false} PiecesFit(s: string)
    ensures NonEmpty(Pieces(s)) && forall k :: 0 <= k < |Pieces(s)| ==> |Pieces(s)[k]| <= PAYLOAD_MAX
    ensures Concat(Pieces(s)) == s
    decreases |s|
  {
    if |s| > PAYLOAD_MAX {
      PiecesFit(s[PAYLOAD_MAX..]);
      assert s == s[..PAYLOAD_MAX] + s[PAYLOAD_MAX..];
    } else if s != "" {
      assert Pieces(s)[1..] == [];
    }
  }

  function Payloads(chunks: seq<string>): seq<string>
    requires NonEmpty(chunks)
  {
    if chunks == [] then [] else [Payload(chunks[0])] + Payloads(chunks[1..])
  }

  /** The payloads the writer sends for one typed line. */
  function LinePayloads(line: string): seq<string> {
    PiecesFit(line + "\n");
    Payloads(Pieces(line + "\n"))
  }

  /** What the payloads of a typed line amount to: the newline survives only in a full last read. */
  function Kept(s: string): string
    requires |s| > 0
  {
    if |s| % PAYLOAD_MAX == 0 then s else s[..|s| - 1]
  }

  lemma {:induction false} PayloadsCount(s: string)
    requires |s| > 0
    ensures NonEmpty(Pieces(s))
    ensures |Payloads(Pieces(s))| == (|s| + PAYLOAD_MAX - 1) / PAYLOAD_MAX
    decreases |s|
  {
    PiecesFit(s);
    if |s| > PAYLOAD_MAX {
      PayloadsCount(s[PAYLOAD_MAX..]);
      assert Pieces(s)[1..] == Pieces(s[PAYLOAD_MAX..]);
    }
  }

  /** A long input splits into its first full read and the rest. */
  lemma PayloadsUnfold(s: string)
    requires |s| > PAYLOAD_MAX
    ensures NonEmpty(Pieces(s)) && NonEmpty(Pieces(s[PAYLOAD_MAX..]))
    ensures Concat(Payloads(Pieces(s))) == CString(s[..PAYLOAD_MAX]) + Concat(Payloads(Pieces(s[PAYLOAD_MAX..])))
  {
    var head, tail := s[..PAYLOAD_MAX], s[PAYLOAD_MAX..];
    PiecesFit(s);
    PiecesFit(tail);
    assert Pieces(s) == [head] + Pieces(tail);
    hide Pieces, CString, Kept;
    assert Pieces(s)[1..] == Pieces(tail) && Payload(head) == CString(head);
    var ps := Payloads(Pieces(s));
    assert ps == [Payload(head)] + Payloads(Pieces(tail)) && ps[1..] == Payloads(Pieces(tail));
  }

  lemma KeptUnfold(s: string)
    requires |s| > PAYLOAD_MAX
    ensures Kept(s) == s[..PAYLOAD_MAX] + Kept(s[PAYLOAD_MAX..])
  {
    assert |s| % PAYLOAD_MAX == (|s| - PAYLOAD_MAX) % PAYLOAD_MAX;
  }

  lemma {:induction false} PayloadsConserve(s: string)
    requires |s| > 0
    ensures NonEmpty(Pieces(s))
    ensures |Concat(Payloads(Pieces(s)))| <= |Kept(s)|
    ensures NulFree(Kept(s)) <==> Concat(Payloads(Pieces(s))) == Kept(s)
    ensures NulFree(Kept(s)) <==> |Concat(Payloads(Pieces(s)))| == |Kept(s)|
    decreases |s|
  {
    if |s| <= PAYLOAD_MAX {
      PiecesFit(s);
      CStringIsPrefix(RawPayload(s));
      assert Payloads(Pieces(s)) == [Payload(s)] && [Payload(s)][1..] == [];
      assert Concat([Payload(s)]) == Payload(s);
    } else {
      var head, tail := s[..PAYLOAD_MAX], s[PAYLOAD_MAX..];
      PayloadsUnfold(s);
      KeptUnfold(s);
      PayloadsConserve(tail);
      CStringIsPrefix(head);
      NulFreeConcat(head, Kept(tail));
      hide Pieces, Payloads, Concat, Kept, CString, NulFree;
      ShorterHead(CString(head), head, Concat(Payloads(Pieces(tail))), Kept(tail));
    }
  }

  /** Two concatenations of prefixes and wholes agree exactly when both parts do. */
  lemma ShorterHead(a: string, head: string, b: string, tail: string)
    requires |a| <= |head| && |b| <= |tail|
    ensures a + b == head + tail ==> a == head && b == tail
    ensures |a + b| <= |head + tail|
    ensures |a + b| == |head + tail| ==> |a| == |head| && |b| == |tail|
  {
    if a + b == head + tail {
      assert (a + b)[..|a|] == a && (a + b)[|a|..] == b;
      assert (head + tail)[..|head|] == head && (head + tail)[|head|..] == tail;
    }
  }

  lemma NulFreeConcat(a: string, b: string)
    ensures NulFree(a + b) <==> NulFree(a) && NulFree(b)
  {
    if NulFree(a + b) {
      assert forall k :: 0 <= k < |a| ==> a[k] == (a + b)[k];
      assert forall k :: 0 <= k < |b| ==> b[k] == (a + b)[|a| + k];
    }
  }

  /**
   A typed line of L characters becomes ceil((L + 1) / 20) frames, whose payloads joined give the
   line back exactly when it holds no NUL; a newline is left on it when L + 1 is a multiple of 20.
   */
  lemma ChunkingConservation(line: string)
    ensures |LinePayloads(line)| == (|line| + 1 + PAYLOAD_MAX - 1) / PAYLOAD_MAX
    ensures NulFree(line) <==>
            Concat(LinePayloads(line)) == line + if (|line| + 1) % PAYLOAD_MAX == 0 then "\n" else ""
  {
    var s := line + "\n";
    PayloadsCount(s);
    PayloadsConserve(s);
    assert s[..|line|] == line;
    NulFreeConcat(line, "\n");
    assert line + "" == line;
  }

  // ---------- Input that is not typed ----------

  /** The text without its newlines. */
  function StripNewlines(s: string): string {
    if s == "" then ""
    else (if s[0] == '\n' then "" else [s[0]]) + StripNewlines(s[1..])
  }

  lemma {:induction false} StripConcat(a: string, b: string)
    ensures StripNewlines(a + b) == StripNewlines(a) + StripNewlines(b)
  {
    if a == "" {
      assert a + b == b;
    } else {
      assert (a + b)[0] == a[0] && (a + b)[1..] == a[1..] + b;
      StripConcat(a[1..], b);
    }
  }

  /** The read loses nothing but a newline: it holds no NUL and, if short, ends in one. */
  predicate Harmless(chunk: string)
    requires |chunk| > 0
  {
    NulFree(chunk) && (|chunk| < PAYLOAD_MAX ==> chunk[|chunk| - 1] == '\n')
  }

  lemma StripOne(c: char)
    ensures StripNewlines([c]) == if c == '\n' then "" else [c]
  {
    assert [c][1..] == "";
  }

  lemma CStringStripped(s: string)
    ensures NulFree(s) ==> CString(s) == s
    ensures !NulFree(s) ==> |StripNewlines(CString(s))| < |StripNewlines(s)|
  {
    hide StripNewlines, CString, NulFree;
    CStringIsPrefix(s);
    var n := |CString(s)|;
    if n < |s| {
      assert s == CString(s) + ([NUL] + s[n + 1..]);
      StripConcat(CString(s), [NUL] + s[n + 1..]);
      StripConcat([NUL], s[n + 1..]);
      StripOne(NUL);
    }
  }

  lemma StripLast(s: string, c: char)
    ensures StripNewlines(s + [c]) == StripNewlines(s) + if c == '\n' then "" else [c]
  {
    StripConcat(s, [c]);
    StripOne(c);
  }

  /** One read's payload has the read's text exactly if the read is harmless, and less otherwise. */
  lemma PayloadStripped(chunk: string)
    requires |chunk| > 0
    ensures Harmless(chunk) ==> StripNewlines(Payload(chunk)) == StripNewlines(chunk)
    ensures !Harmless(chunk) ==> |StripNewlines(Payload(chunk))| < |StripNewlines(chunk)|
  {
    var raw, last := RawPayload(chunk), chunk[|chunk| - 1];
    CStringStripped(raw);
    if |chunk| < PAYLOAD_MAX {
      assert chunk == raw + [last];
      NulFreeConcat(raw, [last]);
      StripLast(raw, last);
    }
    hide StripNewlines, CString;
  }

  /**
   For standard input cut into reads in any way, the payloads are the input up to newlines exactly
   when no read holds a NUL and every short one ends in a newline: at the end of a file without one,
   or from a pipe, the last byte of a short read is lost whatever it is.
   */
  lemma {:induction false} PayloadsKeepText(chunks: seq<string>)
    requires NonEmpty(chunks)
    ensures |StripNewlines(Concat(Payloads(chunks)))| <= |StripNewlines(Concat(chunks))|
    ensures StripNewlines(Concat(Payloads(chunks))) == StripNewlines(Concat(chunks)) <==>
            forall k :: 0 <= k < |chunks| ==> Harmless(chunks[k])
  {
    if chunks != [] {
      var head, rest := chunks[0], chunks[1..];
      PayloadsKeepText(rest);
      PayloadStripped(head);
      StripConcat(head, Concat(rest));
      StripConcat(Payload(head), Concat(Payloads(rest)));
      assert Payloads(chunks) == [Payload(head)] + Payloads(rest);
      assert Concat(Payloads(chunks)) == Payload(head) + Concat(Payloads(rest));
      assert (forall k :: 0 <= k < |chunks| ==> Harmless(chunks[k])) <==>
             Harmless(head) && forall k :: 0 <= k < |rest| ==> Harmless(rest[k])
      by {
        assert forall k :: 0 < k < |chunks| ==> chunks[k] == rest[k - 1];
        assert forall k :: 0 <= k < |rest| ==> rest[k] == chunks[k + 1];
      }
      hide StripNewlines, Concat, Payloads, Payload, Harmless;
      ShorterHead(StripNewlines(Payload(head)), StripNewlines(head),
                  StripNewlines(Concat(Payloads(rest))), StripNewlines(Concat(rest)));
    }
  }

  // ---------- From the keyboard to log.txt ----------

  /** The payloads sent for a whole session of typed lines. */
  function SessionPayloads(lines: seq<string>): seq<string> {
    if lines == [] then [] else LinePayloads(lines[0]) + SessionPayloads(lines[1..])
  }

  predicate AllNulFree(lines: seq<string>) {
    forall k :: 0 <= k < |lines| ==> NulFree(lines[k])
  }

  lemma {:induction false} LinesConcat(ps: seq<string>, qs: seq<string>)
    ensures Lines(ps + qs) == Lines(ps) + Lines(qs)
  {
    if ps == [] {
      assert ps + qs == qs;
    } else {
      assert (ps + qs)[0] == ps[0] && (ps + qs)[1..] == ps[1..] + qs;
      LinesConcat(ps[1..], qs);
      assert ps[0] + "\n" + (Lines(ps[1..]) + Lines(qs)) == ps[0] + "\n" + Lines(ps[1..]) + Lines(qs);
    }
  }

  lemma {:induction false} LinesLength(ps: seq<string>)
    ensures |Lines(ps)| == |Concat(ps)| + |ps|
  {
    if ps != [] {
      LinesLength(ps[1..]);
    }
  }

  /** One line's share of the log: itself when it has at most 18 characters, otherwise longer. */
  lemma LineLog(line: string)
    requires NulFree(line)
    ensures |line| <= 18 ==> LinePayloads(line) == [line] && Lines(LinePayloads(line)) == line + "\n"
    ensures |line| > 18 ==> |Lines(LinePayloads(line))| > |line| + 1
  {
    ChunkingConservation(line);
    LinesLength(LinePayloads(line));
    if |line| <= 18 {
      var s := line + "\n";
      assert Pieces(s) == [s] && [s][1..] == [];
      CStringIsPrefix(line);
      assert RawPayload(s) == line;
      assert line + "\n" + Lines([]) == line + "\n";
    }
  }

  lemma {:induction false} LogNotShorter(lines: seq<string>)
    requires AllNulFree(lines)
    ensures |Lines(SessionPayloads(lines))| >= |Lines(lines)|
  {
    if lines != [] {
      LinesConcat(LinePayloads(lines[0]), SessionPayloads(lines[1..]));
      LineLog(lines[0]);
      LogNotShorter(lines[1..]);
    }
  }

  predicate ShortLines(lines: seq<string>) {
    forall k :: 0 <= k < |lines| ==> |lines[k]| <= 18
  }

  lemma {:induction false} CleanLogIsText(lines: seq<string>)
    requires AllNulFree(lines)
    ensures Lines(SessionPayloads(lines)) == Lines(lines) <==> ShortLines(lines)
  {
    if lines != [] {
      var rest := lines[1..];
      LinesConcat(LinePayloads(lines[0]), SessionPayloads(rest));
      LineLog(lines[0]);
      LogNotShorter(rest);
      CleanLogIsText(rest);
      var text, log := Lines(lines), Lines(SessionPayloads(lines));
      if |lines[0]| <= 18 {
        assert log == lines[0] + "\n" + Lines(SessionPayloads(rest));
        assert text[|lines[0]| + 1..] == Lines(rest) && log[|lines[0]| + 1..] == Lines(SessionPayloads(rest));
        assert ShortLines(lines) <==> ShortLines(rest) by {
          assert forall k :: 0 < k < |lines| ==> lines[k] == rest[k - 1];
        }
      } else {
        assert |log| > |text|;
      }
    }
  }

  /** The log cut at its newlines. */
  function SplitLines(s: string, started: string): seq<string>
    decreases |s|
  {
    if s == "" then (if started == "" then [] else [started])
    else if s[0] == '\n' then [started] + SplitLines(s[1..], "")
    else SplitLines(s[1..], started + [s[0]])
  }

  predicate NewlineFree(s: string) {
    forall k :: 0 <= k < |s| ==> s[k] != '\n'
  }

  lemma {:induction false} SplitTakesLine(p: string, rest: string, started: string)
    requires NewlineFree(p)
    ensures SplitLines(p + "\n" + rest, started) == [started + p] + SplitLines(rest, "")
    decreases |p|
  {
    var s := p + "\n" + rest;
    if p == "" {
      assert s[1..] == rest && started + p == started;
    } else {
      assert s[1..] == p[1..] + "\n" + rest && s[0] == p[0];
      SplitTakesLine(p[1..], rest, started + [p[0]]);
      assert started + [p[0]] + p[1..] == started + p;
    }
  }

  lemma {:induction false} SplitIsNewlineFree(s: string, started: string)
    requires NewlineFree(started)
    ensures forall k :: 0 <= k < |SplitLines(s, started)| ==> NewlineFree(SplitLines(s, started)[k])
    decreases |s|
  {
    if s != "" {
      if s[0] == '\n' {
        SplitIsNewlineFree(s[1..], "");
      } else {
        SplitIsNewlineFree(s[1..], started + [s[0]]);
      }
    }
  }

  /** Cutting the log at newlines recovers the payloads exactly when none of them holds a newline. */
  lemma {:induction false} SplitRecoversPayloads(ps: seq<string>)
    ensures SplitLines(Lines(ps), "") == ps <==> forall k :: 0 <= k < |ps| ==> NewlineFree(ps[k])
  {
    SplitIsNewlineFree(Lines(ps), "");
    if ps != [] && NewlineFree(ps[0]) {
      SplitRecoversPayloads(ps[1..]);
      SplitTakesLine(ps[0], Lines(ps[1..]), "");
      assert "" + ps[0] == ps[0] && ps == [ps[0]] + ps[1..];
      assert forall k :: 0 < k < |ps| ==> ps[k] == ps[1..][k - 1];
    }
  }

  lemma {:induction false} ConcatNewlineFree(ps: seq<string>)
    ensures NewlineFree(Concat(ps)) <==> forall k :: 0 <= k < |ps| ==> NewlineFree(ps[k])
  {
    if ps != [] {
      ConcatNewlineFree(ps[1..]);
      var all := Concat(ps);
      assert forall k :: 0 <= k < |ps[0]| ==> ps[0][k] == all[k];
      assert forall k :: 0 <= k < |Concat(ps[1..])| ==> Concat(ps[1..])[k] == all[|ps[0]| + k];
      assert forall k :: 0 < k < |ps| ==> ps[k] == ps[1..][k - 1];
    }
  }

  lemma NewlineFreeConcat(a: string, b: string)
    ensures NewlineFree(a + b) <==> NewlineFree(a) && NewlineFree(b)
  {
    if NewlineFree(a + b) {
      assert forall k :: 0 <= k < |a| ==> a[k] == (a + b)[k];
      assert forall k :: 0 <= k < |b| ==> b[k] == (a + b)[|a| + k];
    }
  }

  /** One newline, at the end. */
  predicate EndsLine(s: string) {
    |s| > 0 && NewlineFree(s[..|s| - 1]) && s[|s| - 1] == '\n'
  }

  /** Its last read is full and holds no NUL. */
  predicate LastReadFull(s: string) {
    |s| > 0 && |s| % PAYLOAD_MAX == 0 && NulFree(s[|s| - PAYLOAD_MAX..])
  }

  lemma LastReadNewline(s: string)
    requires EndsLine(s) && |s| <= PAYLOAD_MAX
    ensures NewlineFree(Payload(s)) <==> !LastReadFull(s)
  {
    var p := Payload(s);
    CStringIsPrefix(RawPayload(s));
    assert forall k :: 0 <= k < |s| - 1 ==> s[k] == s[..|s| - 1][k];
    assert s[0..] == s;
    if |s| == PAYLOAD_MAX && NulFree(s) {
      assert p[|s| - 1] == '\n';
    }
  }

  lemma PrefixNewlineFree(s: string)
    requires NewlineFree(s)
    ensures NewlineFree(CString(s))
  {
    CStringIsPrefix(s);
  }

  lemma LineUnfold(s: string)
    requires EndsLine(s) && |s| > PAYLOAD_MAX
    ensures NewlineFree(CString(s[..PAYLOAD_MAX])) && EndsLine(s[PAYLOAD_MAX..])
    ensures LastReadFull(s) <==> LastReadFull(s[PAYLOAD_MAX..])
  {
    hide CString, NulFree, NewlineFree;
    var head, tail := s[..PAYLOAD_MAX], s[PAYLOAD_MAX..];
    assert s[..|s| - 1] == head + tail[..|tail| - 1];
    NewlineFreeConcat(head, tail[..|tail| - 1]);
    PrefixNewlineFree(head);
    assert |s| % PAYLOAD_MAX == |tail| % PAYLOAD_MAX;
    if |s| % PAYLOAD_MAX == 0 {
      assert tail[|tail| - PAYLOAD_MAX..] == s[|s| - PAYLOAD_MAX..];
    }
  }

  /** The payloads hold the newline exactly if the last read keeps it. */
  lemma {:induction false} PiecesKeepNewline(s: string)
    requires EndsLine(s)
    ensures NonEmpty(Pieces(s))
    ensures NewlineFree(Concat(Payloads(Pieces(s)))) <==> !LastReadFull(s)
    decreases |s|
  {
    assert |s| > 0;
    hide EndsLine, LastReadFull, NewlineFree, Payload;
    PiecesFit(s);
    if |s| <= PAYLOAD_MAX {
      LastReadNewline(s);
      assert Payloads(Pieces(s)) == [Payload(s)] && [Payload(s)][1..] == [];
      assert Concat([Payload(s)]) == Payload(s);
    } else {
      var head, tail := s[..PAYLOAD_MAX], s[PAYLOAD_MAX..];
      LineUnfold(s);
      PiecesKeepNewline(tail);
      PayloadsUnfold(s);
      NewlineFreeConcat(CString(head), Concat(Payloads(Pieces(tail))));
    }
  }

  /**
   A typed line's payloads survive the log exactly when L + 1 is not a multiple of 20, or a NUL in
   the last read hides the newline it keeps.
   */
  lemma LineSurvivesLog(line: string)
    requires NewlineFree(line)
    ensures SplitLines(Lines(LinePayloads(line)), "") == LinePayloads(line) <==>
            (|line| + 1) % PAYLOAD_MAX != 0 || !NulFree(line[|line| + 1 - PAYLOAD_MAX..])
  {
    LineEnds(line);
    SplitRecoversPayloads(LinePayloads(line));
    ConcatNewlineFree(LinePayloads(line));
    PiecesKeepNewline(line + "\n");
    hide Lines, SplitLines, Pieces, Payloads, Concat, NewlineFree, LastReadFull, EndsLine;
  }

  lemma LineEnds(line: string)
    requires NewlineFree(line)
    ensures EndsLine(line + "\n")
    ensures LastReadFull(line + "\n") <==>
            (|line| + 1) % PAYLOAD_MAX == 0 && NulFree(line[|line| + 1 - PAYLOAD_MAX..])
  {
    var s := line + "\n";
    assert s[..|s| - 1] == line;
    if |s| % PAYLOAD_MAX == 0 {
      assert s[|s| - PAYLOAD_MAX..] == line[|s| - PAYLOAD_MAX..] + "\n";
      NulFreeConcat(line[|s| - PAYLOAD_MAX..], "\n");
    }
  }

  lemma {:induction false} DataOfSendable(ms: seq<Message>)
    requires forall k :: 0 <= k < |DataOf(ms)| ==> |DataOf(ms)[k]| <= PAYLOAD_MAX && NulFree(DataOf(ms)[k])
    ensures AllSendable(ms)
  {
    if ms != [] {
      var rest := DataOf(ms[1..]);
      if ms[0].Data? {
        assert DataOf(ms) == [ms[0].payload] + rest;
        assert Sendable(ms[0]) by { assert DataOf(ms)[0] == ms[0].payload; }
        assert forall k :: 0 <= k < |rest| ==> rest[k] == DataOf(ms)[k + 1];
      } else {
        assert DataOf(ms) == rest;
      }
      DataOfSendable(ms[1..]);
    }
  }

  lemma {:induction false} PayloadsSendable(chunks: seq<string>)
    requires NonEmpty(chunks) && forall k :: 0 <= k < |chunks| ==> |chunks[k]| <= PAYLOAD_MAX
    ensures forall k :: 0 <= k < |Payloads(chunks)| ==>
              |Payloads(chunks)[k]| <= PAYLOAD_MAX && NulFree(Payloads(chunks)[k])
  {
    if chunks != [] {
      CStringIsPrefix(RawPayload(chunks[0]));
      PayloadsSendable(chunks[1..]);
    }
  }

  lemma {:induction false} SessionSendable(lines: seq<string>)
    ensures forall k :: 0 <= k < |SessionPayloads(lines)| ==>
              |SessionPayloads(lines)[k]| <= PAYLOAD_MAX && NulFree(SessionPayloads(lines)[k])
  {
    if lines != [] {
      PiecesFit(lines[0] + "\n");
      PayloadsSendable(Pieces(lines[0] + "\n"));
      SessionSendable(lines[1..]);
    }
  }

  lemma {:induction false} LinesNulFree(ps: seq<string>)
    ensures NulFree(Lines(ps)) <==> AllNulFree(ps)
  {
    if ps != [] {
      LinesNulFree(ps[1..]);
      NulFreeConcat(ps[0] + "\n", Lines(ps[1..]));
      NulFreeConcat(ps[0], "\n");
      assert forall k :: 0 < k < |ps| ==> ps[k] == ps[1..][k - 1];
    }
  }

  /**
   The log shows the typed text unchanged exactly when no line has more than 18 characters or holds
   a NUL, which the log never shows.
   */
  lemma LogIsTextIffShortLines(lines: seq<string>)
    ensures Lines(SessionPayloads(lines)) == Lines(lines) <==> AllNulFree(lines) && ShortLines(lines)
  {
    LinesNulFree(lines);
    LinesNulFree(SessionPayloads(lines));
    SessionSendable(lines);
    if AllNulFree(lines) {
      CleanLogIsText(lines);
    }
  }

  lemma {:induction false} FramesSized(ms: seq<Message>)
    requires AllSendable(ms)
    ensures |Frames(ms)| == |ms| && AllFrameSized(Frames(ms))
  {
    if ms != [] {
      FramesSized(ms[1..]);
      assert Sendable(ms[0]);
    }
  }

  /**
   End to end: for any typed lines, any signals merged among their frames and any clean schedule
   that drains the FIFO, the signals file lists the signals in order and the log lists the
   payloads; the log is the typed text exactly when the lines have at most 18 characters and no NUL.
   */
  lemma EndToEnd(lines: seq<string>, ms: seq<Message>, events: seq<Event>)
    requires DataOf(ms) == SessionPayloads(lines)
    requires Appended(events) == Frames(ms) && Clean([], events) && |Reads("", events)| == |ms|
    ensures
      var files := Deliver(Files("", ""), Reads("", events));
      && files.signals == Lines(SignalsOf(ms))
      && files.log == Lines(SessionPayloads(lines))
      && (files.log == Lines(lines) <==> AllNulFree(lines) && ShortLines(lines))
  {
    hide Clean, Reads, Deliver, DataOf, SignalsOf, Lines, SessionPayloads, Concat, Frames;
    assert Concat([]) == "" by { ConcatEmpty(); }
    SessionSendable(lines);
    DataOfSendable(ms);
    FramesSized(ms);
    FramedExactlyWhenClean([], events);
    assert [] + Frames(ms) == Frames(ms);
    assert Reads("", events) == Frames(ms);
    DemuxInvertsMerge(Files("", ""), ms);
    LogIsTextIffShortLines(lines);
  }

  lemma TwoFramesOneRead(f: string, g: string)
    requires 0 < |f| + |g| <= READ_MAX
    ensures Reads("", [Append(f), Append(g), Read]) == [f + g]
  {
    var events := [Append(f), Append(g), Read];
    assert events[1..] == [Append(g), Read] && events[1..][1..] == [Read] && [Read][1..] == [];
    assert "" + f == f && (f + g)[..|f + g|] == f + g && (f + g)[|f + g|..] == "";
    assert Reads(f + g, [Read]) == [f + g] + Reads("", []);
  }

  /** Off a clean schedule a signal can vanish: one read takes a short data frame and the signal. */
  lemma MergedReadLosesSignal(p: string, usr1: bool)
    requires NulFree(p) && |p| <= 13
    ensures Deliver(Files("", ""), Reads("", [Append(Frame(Data(p))), Append(Frame(Signal(usr1))), Read])) ==
            Files(p + "SIGN: " + Digit(usr1) + "\n", "")
  {
    var f, g := Frame(Data(p)), Frame(Signal(usr1));
    TwoFramesOneRead(f, g);
    var merged := p + "SIGN: " + Digit(usr1);
    assert f + g == DATA + merged;
    NulFreeConcat(p + "SIGN: ", Digit(usr1));
    NulFreeConcat(p, "SIGN: ");
    DispatchFrameText(merged);
    assert [f + g][1..] == [];
  }

  lemma DispatchFrameText(text: string)
    requires NulFree(text)
    ensures Dispatch(Files("", ""), CString(DATA + text)) == Files(text + "\n", "")
  {
    NulFreeConcat(DATA, text);
    CStringIsPrefix(DATA + text);
    assert (DATA + text)[6..] == text && "" + text + "\n" == text + "\n";
  }

  /** The reads of stdin that a session of typed lines causes. */
  function SessionChunks(lines: seq<string>): seq<string> {
    if lines == [] then [] else Pieces(lines[0] + "\n") + SessionChunks(lines[1..])
  }

  lemma {:induction false} PayloadsConcat(us: seq<string>, vs: seq<string>)
    requires NonEmpty(us) && NonEmpty(vs)
    ensures NonEmpty(us + vs) && Payloads(us + vs) == Payloads(us) + Payloads(vs)
  {
    if us == [] {
      assert us + vs == vs;
    } else {
      hide CString, Payload;
      var all := us + vs;
      assert all[0] == us[0] && all[1..] == us[1..] + vs;
      assert forall k :: 0 <= k < |all| ==> all[k] == if k < |us| then us[k] else vs[k - |us|];
      PayloadsConcat(us[1..], vs);
      assert [Payload(us[0])] + (Payloads(us[1..]) + Payloads(vs)) == Payloads(us) + Payloads(vs);
    }
  }

  lemma {:induction false} SessionChunksPayloads(lines: seq<string>)
    ensures NonEmpty(SessionChunks(lines)) && Payloads(SessionChunks(lines)) == SessionPayloads(lines)
  {
    if lines != [] {
      PiecesFit(lines[0] + "\n");
      SessionChunksPayloads(lines[1..]);
      PayloadsConcat(Pieces(lines[0] + "\n"), SessionChunks(lines[1..]));
    }
  }
}
