/** The writer and the reader as they run: fixed buffers cleared, filled and edited in place. */
module FramingProgram {
  import opened CStrings
  import opened Framing
  import opened FramingFiles

  /** The named FIFO: a write of a whole frame is one append. */
  class Fifo {
    var bytes: string

    constructor ()
      ensures bytes == ""
    {
      bytes := "";
    }
  }

  /** What reaches the writer: bytes read from stdin, or SIGUSR1/SIGUSR2 between two of its steps. */
  datatype Input = Typed(chunk: string) | Usr(usr1: bool)

  /** read() with a count of 20 delivers 1 to 20 bytes; 0 is the end of the input. */
  predicate Readable(i: Input) {
    i.Typed? ==> 1 <= |i.chunk| <= PAYLOAD_MAX
  }

  function MessageOf(i: Input): Message
    requires Readable(i)
  {
    match i
    case Typed(chunk) => Data(Payload(chunk))
    case Usr(usr1) => Signal(usr1)
  }

  function MessagesOf(inputs: seq<Input>): seq<Message>
    requires forall k :: 0 <= k < |inputs| ==> Readable(inputs[k])
  {
    if inputs == [] then [] else [MessageOf(inputs[0])] + MessagesOf(inputs[1..])
  }

  function ChunksOf(inputs: seq<Input>): seq<string> {
    if inputs == [] then []
    else (if inputs[0].Typed? then [inputs[0].chunk] else []) + ChunksOf(inputs[1..])
  }

  lemma {:induction false} DataOfMessages(inputs: seq<Input>)
    requires forall k :: 0 <= k < |inputs| ==> Readable(inputs[k])
    ensures NonEmpty(ChunksOf(inputs)) && DataOf(MessagesOf(inputs)) == Payloads(ChunksOf(inputs))
  {
    if inputs != [] {
      var rest, ms := inputs[1..], MessagesOf(inputs);
      DataOfMessages(rest);
      assert ms[0] == MessageOf(inputs[0]) && ms[1..] == MessagesOf(rest);
      if inputs[0].Typed? {
        assert ChunksOf(inputs) == [inputs[0].chunk] + ChunksOf(rest) && ChunksOf(inputs)[1..] == ChunksOf(rest);
        assert DataOf(ms) == [Payload(inputs[0].chunk)] + DataOf(ms[1..]);
      } else {
        assert ChunksOf(inputs) == ChunksOf(rest) && DataOf(ms) == DataOf(ms[1..]);
      }
    }
  }

  /**
   The writer's data frames for a typed session carry the session's payloads, however signals are
   mixed in; with EndToEnd this takes typed lines all the way to the two files.
   */
  lemma WriterSendsSession(lines: seq<string>, inputs: seq<Input>)
    requires (forall k :: 0 <= k < |inputs| ==> Readable(inputs[k])) && ChunksOf(inputs) == SessionChunks(lines)
    ensures DataOf(MessagesOf(inputs)) == SessionPayloads(lines)
  {
    DataOfMessages(inputs);
    SessionChunksPayloads(lines);
  }

  /** The digits of the signals that arrive, in order: 1 for SIGUSR1, 2 for SIGUSR2. */
  function UsrDigits(inputs: seq<Input>): seq<string> {
    if inputs == [] then []
    else
      (match inputs[0]
       case Typed(_) => []
       case Usr(usr1) => if usr1 then ["1"] else ["2"]) +
      UsrDigits(inputs[1..])
  }

  /** The bytes of one write, header and all. */
  function WireOf(i: Input): string
    requires Readable(i)
  {
    match i
    case Typed(chunk) => "DATA: " + CString(if |chunk| < 20 then chunk[..|chunk| - 1] else chunk)
    case Usr(usr1) => if usr1 then "SIGN: 1" else "SIGN: 2"
  }

  function Wire(inputs: seq<Input>): string
    requires forall k :: 0 <= k < |inputs| ==> Readable(inputs[k])
  {
    if inputs == [] then "" else WireOf(inputs[0]) + Wire(inputs[1..])
  }

  lemma FramesCons(m: Message, ms: seq<Message>, before: string)
    ensures before + Frame(m) + Concat(Frames(ms)) == before + Concat(Frames([m] + ms))
  {
    assert ([m] + ms)[1..] == ms;
    var fs := Frames([m] + ms);
    assert fs == [Frame(m)] + Frames(ms) && fs[1..] == Frames(ms);
    assert before + Frame(m) + Concat(Frames(ms)) == before + (Frame(m) + Concat(Frames(ms)));
  }

  /** The frames of a run are those bytes, and its signals those digits. */
  lemma {:induction false} WriterSendsWire(inputs: seq<Input>)
    requires forall k :: 0 <= k < |inputs| ==> Readable(inputs[k])
    ensures Concat(Frames(MessagesOf(inputs))) == Wire(inputs)
    ensures SignalsOf(MessagesOf(inputs)) == UsrDigits(inputs)
  {
    if inputs != [] {
      var rest, ms := inputs[1..], MessagesOf(inputs);
      WriterSendsWire(rest);
      hide CString;
      assert ms == [MessageOf(inputs[0])] + MessagesOf(rest) && ms[1..] == MessagesOf(rest);
      FramesCons(ms[0], MessagesOf(rest), "");
      assert Frame(ms[0]) == WireOf(inputs[0]);
      assert "" + Frame(ms[0]) + Concat(Frames(MessagesOf(rest))) == WireOf(inputs[0]) + Wire(rest);
    }
  }

  lemma MessagesCons(inputs: seq<Input>, k: nat)
    requires k < |inputs| && forall i :: 0 <= i < |inputs| ==> Readable(inputs[i])
    ensures MessagesOf(inputs[k..]) == [MessageOf(inputs[k])] + MessagesOf(inputs[k + 1..])
  {
    assert inputs[k..][1..] == inputs[k + 1..];
  }

  lemma NoFrames()
    ensures Concat(Frames(MessagesOf([]))) == ""
  {
  }

  class Writer {
    const fifo: Fifo
    const msg: array<char>  // char msg[21]
    const aux: array<char>  // char aux[27]
    const auxHandler: array<char>  // char aux_handler[7], and the byte behind it

    ghost predicate Valid() {
      msg.Length == 21 && aux.Length == 27 && auxHandler.Length == 8 &&
      msg != aux && msg != auxHandler && aux != auxHandler
    }

    constructor (fifo: Fifo)
      ensures Valid() && this.fifo == fifo && fresh(msg) && fresh(aux) && fresh(auxHandler)
    {
      this.fifo := fifo;
      msg := new char[21];
      aux := new char[27];
      auxHandler := new char[8];
    }

    /** Reads a chunk into msg and cuts the last byte of a short one. */
    method TrimChunk(chunk: string)
      requires Valid() && 1 <= |chunk| <= PAYLOAD_MAX
      modifies msg
      ensures CString(msg[..]) == Payload(chunk)
    {
      hide CString;
      Bzero(msg, 21);
      forall k | 0 <= k < |chunk| {
        msg[k] := chunk[k];
      }
      var ret := |chunk|;
      if 20 > ret {
        ret := ret - 1;
      }
      msg[ret] := NUL;
      assert msg[..] == RawPayload(chunk) + msg[ret..];
      CStringPadded(RawPayload(chunk), msg[ret..]);
    }

    /** One turn of the main loop: the chunk is trimmed, framed and written. */
    method SendChunk(chunk: string)
      requires Valid() && 1 <= |chunk| <= PAYLOAD_MAX
      modifies fifo, msg, aux
      ensures fifo.bytes == old(fifo.bytes) + Frame(Data(Payload(chunk)))
    {
      hide CString;
      TrimChunk(chunk);
      CStringIsPrefix(RawPayload(chunk));
      Bzero(aux, 27);
      CStringStopsAt(aux[..], 0);
      Strcat(aux, DATA);
      Strcat(aux, CString(msg[..]));
      fifo.bytes := fifo.bytes + CString(aux[..]);
    }

    /** The handler: the NUL of the seven-character frame lands on the byte behind the array. */
    method SendSignal(usr1: bool)
      requires Valid()
      modifies fifo, auxHandler
      ensures fifo.bytes == old(fifo.bytes) + Frame(Signal(usr1))
      ensures Frame(Signal(usr1)) == if usr1 then "SIGN: 1" else "SIGN: 2"
      ensures auxHandler[7] == NUL
    {
      hide CString;
      Bzero(auxHandler, 7);
      CStringStopsAt(auxHandler[..], 0);
      Strcat(auxHandler, SIGN);
      Strcat(auxHandler, Digit(usr1));
      CStringIsPrefix(auxHandler[..]);
      fifo.bytes := fifo.bytes + CString(auxHandler[..]);
    }

    /** The whole run up to the end of the input, with signals arriving anywhere. */
    method Run(inputs: seq<Input>)
      requires Valid() && forall k :: 0 <= k < |inputs| ==> Readable(inputs[k])
      modifies fifo, msg, aux, auxHandler
      ensures fifo.bytes == old(fifo.bytes) + Concat(Frames(MessagesOf(inputs)))
      ensures fifo.bytes == old(fifo.bytes) + Wire(inputs)
    {
      hide CString, Frame, Frames, Concat, MessagesOf, Wire;
      WriterSendsWire(inputs);
      NoFrames();
      var k := 0;
      assert inputs[0..] == inputs;
      while k < |inputs|
        invariant 0 <= k <= |inputs|
        invariant fifo.bytes + Concat(Frames(MessagesOf(inputs[k..]))) ==
                  old(fifo.bytes) + Concat(Frames(MessagesOf(inputs)))
      {
        ghost var before := fifo.bytes;
        match inputs[k] {
          case Typed(chunk) => SendChunk(chunk);
          case Usr(usr1) => SendSignal(usr1);
        }
        MessagesCons(inputs, k);
        FramesCons(MessageOf(inputs[k]), MessagesOf(inputs[k + 1..]), before);
        k := k + 1;
      }
      assert inputs[k..] == [];
    }
  }

  class Reader {
    const fifo: Fifo
    const msg: array<char>  // char msg[27]
    const aux: array<char>  // char aux[22], and the byte behind it
    var log: string
    var signals: string

    ghost predicate Valid() {
      msg.Length == 27 && aux.Length == 23 && msg != aux
    }

    function Written(): Files
      reads this
    {
      Files(log, signals)
    }

    constructor (fifo: Fifo)
      ensures Valid() && this.fifo == fifo && Written() == Files("", "") && fresh(msg) && fresh(aux)
    {
      this.fifo := fifo;
      msg := new char[27];
      aux := new char[23];
      log, signals := "", "";
    }

    /**
     Copies the text behind the header into aux and ends it with a newline. The final NUL goes
     two cells past the text, which is the byte behind the array exactly for a full payload.
     */
    method TerminateLine(text: string)
      requires Valid() && NulFree(text) && |text| <= PAYLOAD_MAX
      modifies aux
      ensures CString(aux[..]) == text + "\n"
      ensures aux[22] == if |text| == PAYLOAD_MAX then NUL else old(aux[22])
    {
      hide CString;
      Bzero(aux, 22);
      Strcpy(aux, text);
      var n := |CString(aux[..])|;
      aux[n % 256] := '\n';
      assert aux[..n + 1] == text + "\n";
      assert aux[..][..n + 1] == aux[..n + 1];
      CStringStopsAt(aux[..], n + 1);
      n := |CString(aux[..])|;
      aux[n % 256 + 1] := NUL;
      assert aux[..][..n] == text + "\n";
      CStringStopsAt(aux[..], n);
    }

    /** check_and_write_msg */
    method CheckAndWrite()
      requires Valid() && msg[26] == NUL
      modifies `log, `signals, aux
      ensures Written() == Dispatch(old(Written()), CString(old(msg[..])))
      ensures
        var text := CString(old(msg[..]));
        && (Headerless(text) ==> log == old(log) && signals == old(signals))
        && ("DATA: " <= text ==> log == old(log) + text[6..] + "\n" && signals == old(signals))
        && ("SIGN: " <= text ==> log == old(log) && signals == old(signals) + text[6..] + "\n")
      ensures
        var text := CString(old(msg[..]));
        aux[22] == if |text| == READ_MAX && (DATA <= text || SIGN <= text) then NUL else old(aux[22])
    {
      hide CString;
      ghost var text := CString(msg[..]);
      HeaderCompare(msg[..], DATA);
      HeaderCompare(msg[..], SIGN);
      CStringIsPrefix(msg[..]);
      DispatchByHeader(Written(), text);
      if msg[..6] == DATA {
        TailOfC(msg[..], DATA);
        TerminateLine(CString(msg[6..]));
        log := log + CString(aux[..]);
        assert log == old(log) + text[6..] + "\n";
        aux[|CString(aux[..])| % 256 - 1] := NUL;
      } else if msg[..6] == SIGN {
        TailOfC(msg[..], SIGN);
        TerminateLine(CString(msg[6..]));
        signals := signals + CString(aux[..]);
        assert signals == old(signals) + text[6..] + "\n";
        aux[|CString(aux[..])| % 256 - 1] := NUL;
      }
    }

    /** One turn of the read loop on a FIFO that has bytes. */
    method ReadOnce()
      requires Valid() && fifo.bytes != ""
      modifies this, fifo, msg, aux
      ensures
        var n := Min(READ_MAX, |old(fifo.bytes)|);
        && fifo.bytes == old(fifo.bytes)[n..]
        && Written() == Dispatch(old(Written()), CString(old(fifo.bytes)[..n]))
    {
      Bzero(msg, 27);
      var n := Min(26, |fifo.bytes|);
      forall k | 0 <= k < n {
        msg[k] := fifo.bytes[k];
      }
      ghost var received := fifo.bytes[..n];
      fifo.bytes := fifo.bytes[n..];
      assert msg[..] == received + msg[n..];
      CStringPadded(received, msg[n..]);
      CheckAndWrite();
    }

    /** Reads and frame arrivals in any order leave exactly what the specification delivers. */
    method Run(events: seq<Event>)
      requires Valid()
      modifies this, fifo, msg, aux
      ensures Written() == Deliver(old(Written()), Reads(old(fifo.bytes), events))
    {
      var k := 0;
      while k < |events|
        invariant 0 <= k <= |events|
        invariant Deliver(Written(), Reads(fifo.bytes, events[k..])) ==
                  Deliver(old(Written()), Reads(old(fifo.bytes), events))
      {
        assert events[k..][1..] == events[k + 1..];
        match events[k] {
          case Append(f) => fifo.bytes := fifo.bytes + f;
          case Read =>
            if fifo.bytes != "" {
              ghost var n := Min(READ_MAX, |fifo.bytes|);
              ghost var more := Reads(fifo.bytes[n..], events[k + 1..]);
              assert ([fifo.bytes[..n]] + more)[1..] == more;
              ReadOnce();
            }
        }
        k := k + 1;
      }
    }
  }

  /** Comparing six characters of the buffer compares the start of its C string. */
  lemma HeaderCompare(buffer: string, header: string)
    requires |buffer| >= 6 && |header| == 6 && NulFree(header)
    ensures buffer[..6] == header <==> header <= CString(buffer)
  {
    CStringIsPrefix(buffer);
    var c := CString(buffer);
    assert c == buffer[..|c|];
    if buffer[..6] == header {
      assert forall k :: 0 <= k < 6 ==> buffer[k] == header[k] != NUL;
      assert |c| >= 6;
      assert c[..6] == buffer[..6];
    }
  }

  lemma {:induction false} TailOfC(buffer: string, header: string)
    requires |buffer| >= |header| && buffer[..|header|] == header && NulFree(header)
    ensures CString(buffer) == header + CString(buffer[|header|..])
    ensures CString(buffer)[|header|..] == CString(buffer[|header|..])
    decreases |header|
  {
    if header != "" {
      assert buffer[0] == header[0];
      assert buffer[1..][..|header| - 1] == header[1..];
      TailOfC(buffer[1..], header[1..]);
      assert buffer[1..][|header| - 1..] == buffer[|header|..];
      assert [header[0]] + header[1..] == header;
    }
  }
}
