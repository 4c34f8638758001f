/** What a schedule of writes and reads makes of the two files: exactly when they come out right. */
module FramingFiles {
  import opened CStrings
  import opened Framing

  /** The files if every message were delivered on its own. */
  function Right(files: Files, ms: seq<Message>): Files {
    Files(files.log + Lines(DataOf(ms)), files.signals + Lines(SignalsOf(ms)))
  }

  /** The files so far: nothing wrong in either, though the last lines may be missing. */
  predicate Within(files: Files, right: Files) {
    files.log <= right.log && files.signals <= right.signals
  }

  lemma WithinTrans(a: Files, b: Files, c: Files)
    requires Within(a, b) && Within(b, c)
    ensures Within(a, c)
  {
  }

  /** Files are only appended to. */
  lemma {:induction false} DeliverGrows(files: Files, received: seq<string>)
    ensures Within(files, Deliver(files, received))
    decreases |received|
  {
    if received != [] {
      var next := Dispatch(files, CString(received[0]));
      DeliverGrows(next, received[1..]);
      WithinTrans(files, next, Deliver(files, received));
    }
  }

  lemma DeliverCons(files: Files, r: string, rest: seq<string>)
    ensures Deliver(files, [r] + rest) == Deliver(Dispatch(files, CString(r)), rest)
  {
    assert ([r] + rest)[1..] == rest;
  }

  lemma RightCons(files: Files, m: Message, ms: seq<Message>)
    requires Sendable(m) && AllSendable(ms)
    ensures Right(files, [m] + ms) == Right(Dispatch(files, CString(Frame(m))), ms)
  {
    hide Dispatch, CString, Frame;
    var all := [m] + ms;
    assert all[1..] == ms;
    assert Frames(all) == [Frame(m)] + Frames(ms);
    DemuxInvertsMerge(files, all);
    DeliverCons(files, Frame(m), Frames(ms));
    DemuxInvertsMerge(Dispatch(files, CString(Frame(m))), ms);
  }

  // ---------- Frames on the FIFO ----------

  lemma {:induction false} FramesAppend(ms: seq<Message>, m: Message)
    ensures Frames(ms + [m]) == Frames(ms) + [Frame(m)]
  {
    hide Frame;
    if ms == [] {
      assert ms + [m] == [m] && [m][1..] == [];
    } else {
      FramesAppend(ms[1..], m);
      assert (ms + [m])[0] == ms[0] && (ms + [m])[1..] == ms[1..] + [m];
    }
  }

  lemma {:induction false} FramesNulFree(ms: seq<Message>)
    requires AllSendable(ms)
    ensures NulFree(Concat(Frames(ms)))
  {
    if ms != [] {
      FramesNulFree(ms[1..]);
      FrameNulFree(ms[0]);
      assert Frames(ms)[1..] == Frames(ms[1..]);
      NulFreeConcat(Frame(ms[0]), Concat(Frames(ms[1..])));
    }
  }

  lemma FrameNulFree(m: Message)
    requires Sendable(m)
    ensures NulFree(Frame(m))
  {
    match m
    case Data(payload) => NulFreeConcat(DATA, payload);
    case Signal(usr1) => NulFreeConcat(SIGN, Digit(usr1));
  }

  /** No frame begins with a newline. */
  lemma FrameStart(m: Message)
    ensures Frame(m)[0] != '\n'
  {
  }

  /** What a line of the file says: the payload of a data frame, the digit of a signal frame. */
  function Body(m: Message): string {
    match m
    case Data(payload) => payload
    case Signal(usr1) => Digit(usr1)
  }

  /** A read that took a whole frame and x more writes the frame's line with x at its end. */
  lemma DispatchLonger(files: Files, m: Message, x: string)
    ensures Dispatch(files, Frame(m) + x) ==
            match m
            case Data(_) => files.(log := files.log + (Body(m) + x) + "\n")
            case Signal(_) => files.(signals := files.signals + (Body(m) + x) + "\n")
  {
    var text := Frame(m) + x;
    match m
    case Data(payload) =>
      assert DATA <= text && text[6..] == payload + x;
    case Signal(usr1) =>
      assert SIGN <= text && text[6..] == Digit(usr1) + x;
      assert text[0] == 'S' && DATA[0] == 'D';
  }

  /** Such a line is wrong if x does not begin with a newline, whatever follows. */
  lemma LongerLineIsWrong(before: string, body: string, x: string, after: seq<string>)
    requires x != "" && x[0] != '\n'
    ensures !(before + (body + x) + "\n" <= before + Lines([body] + after))
  {
    var n := |before| + |body|;
    var got, right := before + (body + x) + "\n", before + Lines([body] + after);
    assert ([body] + after)[1..] == after;
    assert Lines([body] + after) == body + "\n" + Lines(after);
    assert got[n] == x[0];
    assert right[n] == '\n';
  }

  lemma LongerReadSpoils(files: Files, m: Message, x: string, ms: seq<Message>)
    requires x != "" && x[0] != '\n'
    ensures !Within(Dispatch(files, Frame(m) + x), Right(files, [m] + ms))
  {
    DispatchLonger(files, m, x);
    assert ([m] + ms)[1..] == ms;
    match m
    case Data(payload) =>
      assert DataOf([m] + ms) == [payload] + DataOf(ms);
      LongerLineIsWrong(files.log, payload, x, DataOf(ms));
    case Signal(usr1) =>
      assert SignalsOf([m] + ms) == [Digit(usr1)] + SignalsOf(ms);
      LongerLineIsWrong(files.signals, Digit(usr1), x, SignalsOf(ms));
  }

  lemma TakeLonger(f: string, rest: string, n: nat)
    requires |f| <= n <= |f| + |rest|
    ensures (f + rest)[..n] == f + rest[..n - |f|]
  {
  }

  lemma FramesHead(pm: seq<Message>)
    requires pm != []
    ensures Concat(Frames(pm)) == Frame(pm[0]) + Concat(Frames(pm[1..]))
  {
    assert Frames(pm)[1..] == Frames(pm[1..]);
  }

  lemma NulFreePrefix(s: string, n: nat)
    requires n <= |s| && NulFree(s)
    ensures CString(s[..n]) == s[..n]
  {
    CStringIsPrefix(s[..n]);
  }

  /** A read that meets a short frame with others behind it takes the start of the next frame too. */
  lemma UncleanRead(pm: seq<Message>) returns (x: string)
    requires AllSendable(pm) && |pm| >= 2 && |Frame(pm[0])| < READ_MAX
    ensures
      var pipe := Concat(Frames(pm));
      && pipe != "" && pipe[..Min(READ_MAX, |pipe|)] == Frame(pm[0]) + x
      && CString(pipe[..Min(READ_MAX, |pipe|)]) == Frame(pm[0]) + x
    ensures x != "" && x[0] != '\n'
  {
    hide Frame, Frames, Concat, AllSendable, NulFree, CString;
    FramesHead(pm);
    FramesHead(pm[1..]);
    FramesNulFree(pm);
    FrameStart(pm[1]);
    var pipe, f, rest := Concat(Frames(pm)), Frame(pm[0]), Concat(Frames(pm[1..]));
    var n := Min(READ_MAX, |pipe|);
    x := rest[..n - |f|];
    TakeLonger(f, rest, n);
    NulFreePrefix(pipe, n);
  }

  // ---------- The boundary at file level ----------

  lemma ReadKeepsRight(files: Files, pm: seq<Message>, later: seq<Message>, rest: seq<Event>)
    requires AllSendable(pm) && AllSendable(later) && pm != []
    requires
      var next := Dispatch(files, CString(Frame(pm[0])));
      Within(Deliver(next, Reads(Concat(Frames(pm[1..])), rest)), Right(next, pm[1..] + later)) <==>
      Clean(Frames(pm[1..]), rest)
    ensures Within(Deliver(files, Reads(Concat(Frames(pm)), [Read] + rest)), Right(files, pm + later)) <==>
            Clean(Frames(pm), [Read] + rest)
  {
    hide Reads, Clean, Concat, Deliver, Dispatch, Right, CString, Within, Frame;
    var fs := Frames(pm);
    FramesSized(pm);
    assert fs[0] == Frame(pm[0]) && fs[1..] == Frames(pm[1..]);
    ReadTakesHeadOrMore(fs);
    ReadUnfolds(Concat(fs), rest);
    CleanUnfolds(fs, rest);
    var pipe := Concat(fs);
    var n := Min(READ_MAX, |pipe|);
    DeliverCons(files, pipe[..n], Reads(pipe[n..], rest));
    assert pm + later == [pm[0]] + (pm[1..] + later);
    if |fs[0]| == READ_MAX || |fs| == 1 {
      RightCons(files, pm[0], pm[1..] + later);
    } else {
      var x := UncleanRead(pm);
      LongerReadSpoils(files, pm[0], x, pm[1..] + later);
      var next := Dispatch(files, CString(pipe[..n]));
      DeliverGrows(next, Reads(pipe[n..], rest));
      if Within(Deliver(next, Reads(pipe[n..], rest)), Right(files, pm + later)) {
        WithinTrans(next, Deliver(next, Reads(pipe[n..], rest)), Right(files, pm + later));
      }
    }
  }

  lemma AppendUnfolds(pipe: string, pending: seq<string>, f: string, rest: seq<Event>)
    ensures Reads(pipe, [Append(f)] + rest) == Reads(pipe + f, rest)
    ensures Clean(pending, [Append(f)] + rest) <==> Clean(pending + [f], rest)
  {
    assert ([Append(f)] + rest)[1..] == rest;
  }

  lemma BlockedRead(rest: seq<Event>)
    ensures Concat([]) == "" && Reads("", [Read] + rest) == Reads("", rest)
    ensures Clean([], [Read] + rest) <==> Clean([], rest)
  {
    assert ([Read] + rest)[1..] == rest;
  }

  /**
   Both files hold exactly what was sent, up to lines still to come, if and only if the schedule is
   clean: the first read that runs into a second frame puts that frame's first byte where the right
   file has a newline, and no later read can repair it, whatever the payloads are.
   */
  lemma {:induction false} FilesRightIffClean(files: Files, pm: seq<Message>, later: seq<Message>, events: seq<Event>)
    requires AllSendable(pm) && AllSendable(later) && Appended(events) == Frames(later)
    ensures Within(Deliver(files, Reads(Concat(Frames(pm)), events)), Right(files, pm + later)) <==>
            Clean(Frames(pm), events)
    decreases |events|
  {
    if events == [] {
      assert files.log + "" == files.log;
      assert Within(files, Right(files, pm + later));
    } else {
      var rest := events[1..];
      assert events == [events[0]] + rest;
      hide Within, Right, Deliver, Dispatch, CString, Frame, Reads, Clean, Concat;
      match events[0]
      case Append(f) =>
        AppendedCons(f, rest);
        assert later != [] && Frames(later)[0] == f && Frames(later)[1..] == Appended(rest);
        AppendUnfolds(Concat(Frames(pm)), Frames(pm), f, rest);
        FramesAppend(pm, later[0]);
        ConcatAppend(Frames(pm), f);
        FilesRightIffClean(files, pm + [later[0]], later[1..], rest);
        assert pm + [later[0]] + later[1..] == pm + later;
      case Read =>
        assert Appended(events) == Appended(rest);
        if pm == [] {
          BlockedRead(rest);
          FilesRightIffClean(files, pm, later, rest);
        } else {
          FilesRightIffClean(Dispatch(files, CString(Frame(pm[0]))), pm[1..], later, rest);
          ReadKeepsRight(files, pm, later, rest);
        }
    }
  }

  lemma FilesRightFromStart(ms: seq<Message>, events: seq<Event>)
    requires AllSendable(ms) && Appended(events) == Frames(ms)
    ensures Within(Deliver(Files("", ""), Reads("", events)), Right(Files("", ""), ms)) <==> Clean([], events)
  {
    assert [] + ms == ms && Frames([]) == [] && Concat([]) == "";
    FilesRightIffClean(Files("", ""), [], ms, events);
  }

  lemma FrameAt(ms: seq<Message>, k: nat)
    requires k < |ms|
    ensures k < |Frames(ms)| && Frames(ms)[k] == Frame(ms[k])
  {
    if k > 0 {
      FrameAt(ms[1..], k - 1);
    }
  }

  lemma FullFrames(ms: seq<Message>)
    requires |Frames(ms)| == |ms|
    ensures OnlyLastShort(Frames(ms)) <==>
            forall k :: 0 <= k < |ms| - 1 ==> ms[k].Data? && |ms[k].payload| == PAYLOAD_MAX
  {
    hide Frames;
    forall k | 0 <= k < |ms| ensures Frames(ms)[k] == Frame(ms[k]) {
      FrameAt(ms, k);
    }
  }

  /**
   So the messages that come through under every schedule are full data frames, and at the end one
   message of any kind: 20 bytes of payload each, and a signal only last.
   */
  lemma FilesRightUnderEverySchedule(ms: seq<Message>)
    requires AllSendable(ms)
    ensures (forall events :: Appended(events) == Frames(ms) ==>
               Within(Deliver(Files("", ""), Reads("", events)), Right(Files("", ""), ms))) <==>
            forall k :: 0 <= k < |ms| - 1 ==> ms[k].Data? && |ms[k].payload| == PAYLOAD_MAX
  {
    FramesSized(ms);
    FullFrames(ms);
    hide Within, Deliver, Right, Reads, Clean, Frames, AllSendable, OnlyLastShort, Appended;
    if OnlyLastShort(Frames(ms)) {
      forall events | Appended(events) == Frames(ms)
        ensures Within(Deliver(Files("", ""), Reads("", events)), Right(Files("", ""), ms))
      {
        assert [] + Appended(events) == Frames(ms);
        FullFramesAreClean([], events);
        FilesRightFromStart(ms, events);
      }
    } else {
      var events := UncleanSchedule(Frames(ms));
      FilesRightFromStart(ms, events);
    }
  }

  // ---------- Bytes that belong to no frame ----------

  /** The text begins with neither header. */
  predicate Headerless(text: string) {
    |text| < 6 || (text[..6] != "DATA: " && text[..6] != "SIGN: ")
  }

  /** The two headers send the text behind them to their file; a text with neither goes to no file. */
  lemma DispatchByHeader(files: Files, text: string)
    ensures Headerless(text) ==> Dispatch(files, text) == files
    ensures "DATA: " <= text ==> Dispatch(files, text) == Files(files.log + text[6..] + "\n", files.signals)
    ensures "SIGN: " <= text ==> Dispatch(files, text) == Files(files.log, files.signals + text[6..] + "\n")
  {
    if "SIGN: " <= text {
      assert text[0] == 'S' && DATA[0] == 'D';
    }
  }

  lemma TwoFramesTwoReads(f: string, g: string)
    requires 0 < |f| < READ_MAX && |f| + |g| > READ_MAX && |g| <= READ_MAX
    ensures Reads("", [Append(f), Append(g), Read, Read]) == [f + g[..READ_MAX - |f|], g[READ_MAX - |f|..]]
  {
    var pipe, head, tail := f + g, f + g[..READ_MAX - |f|], g[READ_MAX - |f|..];
    hide Reads;
    assert "" + f == f && pipe[..READ_MAX] == head && pipe[READ_MAX..] == tail;
    AppendUnfolds("", [], f, [Append(g), Read, Read]);
    AppendUnfolds(f, [], g, [Read, Read]);
    assert [Append(f)] + [Append(g), Read, Read] == [Append(f), Append(g), Read, Read];
    assert [Append(g)] + [Read, Read] == [Append(g), Read, Read];
    ReadUnfolds(pipe, [Read]);
    assert [Read] + [Read] == [Read, Read] && Min(READ_MAX, |pipe|) == READ_MAX;
    ReadUnfolds(tail, []);
    assert Min(READ_MAX, |tail|) == |tail| && tail[..|tail|] == tail && tail[|tail|..] == "";
    assert [Read] + [] == [Read];
    NoMoreReads("");
    assert [head] + ([tail] + []) == [head, tail];
  }

  lemma NoMoreReads(pipe: string)
    ensures Reads(pipe, []) == []
  {
  }

  /** The end of a frame that begins inside its header begins with no header. */
  lemma InsideHeader(q: string, k: nat)
    requires 1 <= k <= 5 && |q| >= 6
    ensures Headerless(("DATA: " + q)[k..])
  {
    var tail := ("DATA: " + q)[k..];
    assert tail[0] == ("DATA: " + q)[k];
    assert ("DATA: " + q)[k] in {'A', 'T', ':', ' '};
    assert tail[..6][0] == tail[0];
  }

  lemma HeadDispatched(p: string, x: string)
    ensures Dispatch(Files("", ""), "DATA: " + p + x) == Files(p + x + "\n", "")
  {
    var head := "DATA: " + p + x;
    assert head == "DATA: " + (p + x);
    assert "DATA: " <= head && head[6..] == p + x;
    hide Dispatch;
    DispatchByHeader(Files("", ""), head);
    assert "" + (p + x) + "\n" == p + x + "\n";
  }

  lemma CutNulFree(f: string, g: string, k: nat)
    requires NulFree(f) && NulFree(g) && k <= |g|
    ensures CString(f + g[..k]) == f + g[..k] && CString(g[k..]) == g[k..]
  {
    hide CString;
    CStringIsPrefix(f + g[..k]);
    CStringIsPrefix(g[k..]);
  }

  lemma TwoReadsDelivered(files: Files, f: string, g: string, k: nat)
    requires NulFree(f) && NulFree(g) && 0 < |f| < READ_MAX && |g| <= READ_MAX && k == READ_MAX - |f| < |g|
    ensures Deliver(files, Reads("", [Append(f), Append(g), Read, Read])) ==
            Dispatch(Dispatch(files, f + g[..k]), g[k..])
  {
    CutNulFree(f, g, k);
    TwoFramesTwoReads(f, g);
    var head, tail := f + g[..k], g[k..];
    assert [head, tail] == [head] + [tail] && [tail] == [tail] + [];
    DeliverCons(files, head, [tail]);
    DeliverCons(Dispatch(files, head), tail, []);
    hide CString, Reads, Dispatch, NulFree;
  }

  /** What the two reads deliver. */
  lemma TailDelivered(p: string, q: string)
    requires |p| < PAYLOAD_MAX && |q| == PAYLOAD_MAX && NulFree(p) && NulFree(q)
    ensures
      var frame, k := "DATA: " + q, 20 - |p|;
      Deliver(Files("", ""), Reads("", [Append("DATA: " + p), Append(frame), Read, Read])) ==
      Dispatch(Files(p + frame[..k] + "\n", ""), frame[k..])
  {
    NulFreeConcat("DATA: ", q);
    NulFreeConcat("DATA: ", p);
    assert NulFree("DATA: " + p) && NulFree("DATA: " + q);
    hide CString, Reads, Dispatch, Deliver, NulFree;
    TwoReadsDelivered(Files("", ""), "DATA: " + p, "DATA: " + q, 20 - |p|);
    HeadDispatched(p, ("DATA: " + q)[..20 - |p|]);
  }

  lemma HeaderWrites(files: Files, text: string)
    requires !Headerless(text)
    ensures Dispatch(files, text) != files
  {
    hide Dispatch;
    assert "DATA: " <= text || "SIGN: " <= text;
    DispatchByHeader(files, text);
    assert |files.log + text[6..] + "\n"| > |files.log| && |files.signals + text[6..] + "\n"| > |files.signals|;
  }

  /**
   A short line and a full one waiting together and taken by two reads: the first read joins the
   short line with the start of the second frame, header and all, and what is left of that frame is
   written nowhere unless it happens to begin with a header itself; it cannot when the read stopped
   inside the header.
   */
  lemma TailGoesNowhere(p: string, q: string)
    requires |p| < PAYLOAD_MAX && |q| == PAYLOAD_MAX && NulFree(p) && NulFree(q)
    ensures
      var frame, k := "DATA: " + q, 20 - |p|;
      var files := Deliver(Files("", ""), Reads("", [Append("DATA: " + p), Append(frame), Read, Read]));
      && (files == Files(p + frame[..k] + "\n", "") <==> Headerless(frame[k..]))
      && (|p| > 14 ==> Headerless(frame[k..]))
  {
    var frame, k := "DATA: " + q, 20 - |p|;
    var first, tail := Files(p + frame[..k] + "\n", ""), frame[k..];
    TailDelivered(p, q);
    hide Reads, Deliver, Dispatch, Headerless, NulFree;
    DispatchByHeader(first, tail);
    if !Headerless(tail) {
      HeaderWrites(first, tail);
    }
    if |p| > 14 {
      InsideHeader(q, k);
    }
  }
}
